/**
 * The course review form shared by course and instructor pages: three
 * star ratings, hours of work per week, the course or instructor the review
 * pairs with, and a comment. Every failed check adds its own error and any
 * error stops the submission; otherwise the review is PATCHed when editing
 * and POSTed to its course when new.
 */
module CourseReviewForm {
  import opened Util

  datatype Category = Overall | Challenge | Inclusivity

  /** The keys of `formErrors`: "overall", "challenge", "inclusivity", "workPerWeek", "course", "instructor", "comments". */
  datatype ErrorKey = OverallError | ChallengeError | InclusivityError | WorkError | CourseError | InstructorError | CommentsError

  datatype Ratings = Ratings(overall: int, challenge: int, inclusivity: int)

  /** An existing review; absent numbers read as 0 and an absent comment as "". */
  datatype Review = Review(id: string, overallRating: int, challengeRating: int, inclusivityRating: int,
                           workPerWeek: int, courseId: int, instructorId: int, comments: string)

  /** The reviewed pair, as the form sends it; None is `undefined`. */
  datatype Payload = Payload(overall: int, challenge: int, inclusivity: int, workPerWeek: Option<int>,
                             comments: string, email: string, courseId: Option<int>, instructorId: Option<int>)

  datatype Outcome = Invalid(errors: map<ErrorKey, string>) | Failed(message: string) | Send(httpMethod: string, url: string, payload: Payload)

  function Rating(r: Ratings, c: Category): int {
    match c
    case Overall => r.overall
    case Challenge => r.challenge
    case Inclusivity => r.inclusivity
  }

  /** `handleStarClick`: sets one category and keeps the others. */
  function SetRating(r: Ratings, c: Category, value: int): (s: Ratings)
    ensures Rating(s, c) == value
    ensures forall d :: d != c ==> Rating(s, d) == Rating(r, d)
  {
    match c
    case Overall => r.(overall := value)
    case Challenge => r.(challenge := value)
    case Inclusivity => r.(inclusivity := value)
  }

  /** A star is lit when the rating or the hovered star reaches it. */
  function StarLit(value: int, rating: int, hovered: int): (lit: bool)
    ensures lit <==> value <= rating || value <= hovered
  {
    rating >= value || hovered >= value
  }

  // =====================================================================
  // Numbers
  // =====================================================================

  function DigitValue(c: char): nat
    requires IsDigit(c)
  {
    (c as int) - ('0' as int)
  }

  /** The leading run of digits of s. */
  function DigitPrefix(s: string): (r: string)
    ensures |r| <= |s| && r == s[..|r|]
    ensures forall i :: 0 <= i < |r| ==> IsDigit(r[i])
    ensures |r| < |s| ==> !IsDigit(s[|r|])
  {
    if s != [] && IsDigit(s[0]) then [s[0]] + DigitPrefix(s[1..]) else []
  }

  /** The decimal value of a run of digits. */
  function DigitsValue(d: string): nat
    requires forall i :: 0 <= i < |d| ==> IsDigit(d[i])
    decreases |d|
  {
    if d == [] then 0 else DigitsValue(d[..|d| - 1]) * 10 + DigitValue(d[|d| - 1])
  }

  /**
   * `parseInt(s, 10)`: leading whitespace and one sign are skipped, then
   * the leading digits are read; None (NaN) when there are none.
   */
  function ParseInt(s: string): Option<int> {
    var t := TrimStart(s);
    var negative := t != [] && t[0] == '-';
    var body := if t != [] && (t[0] == '-' || t[0] == '+') then t[1..] else t;
    var d := DigitPrefix(body);
    var v: int := DigitsValue(d);
    if d == [] then None
    else Some(if negative then -v else v)
  }

  /** Input without a single digit is NaN. */
  lemma ParseNoDigits(s: string)
    requires forall i :: 0 <= i < |s| ==> !IsDigit(s[i])
    ensures ParseInt(s).None?
  {
    var t := TrimStart(s);
    assert forall i :: 0 <= i < |t| ==> t[i] == s[|s| - |t| + i];
    var body := if t != [] && (t[0] == '-' || t[0] == '+') then t[1..] else t;
    assert body != [] ==> !IsDigit(body[0]);
  }

  lemma {:induction false} DigitsOfNat(n: nat)
    ensures DigitsValue(NatToString(n)) == n
    decreases n
  {
    if n >= 10 {
      DigitsOfNat(n / 10);
      var x := NatToString(n / 10);
      assert (x + [DigitChar(n % 10)])[..|x|] == x;
    }
  }

  lemma {:induction false} DigitPrefixAll(d: string)
    requires forall i :: 0 <= i < |d| ==> IsDigit(d[i])
    ensures DigitPrefix(d) == d
    decreases |d|
  {
    if d != [] {
      DigitPrefixAll(d[1..]);
    }
  }

  lemma TrimStartOfDigit(s: string)
    requires s != [] && IsDigit(s[0])
    ensures TrimStart(s) == s
  {
    assert !IsSpace(s[0]);
  }

  /** The hours a stored review shows come back unchanged through `parseInt`. */
  lemma ParseShownNumber(n: nat)
    ensures ParseInt(NatToString(n)) == Some(n)
  {
    var s := NatToString(n);
    TrimStartOfDigit(s);
    DigitPrefixAll(s);
    DigitsOfNat(n);
  }

  /** The number field is filled from a review only when it holds a non-zero number (`review.work_per_week ? … : ''`). */
  function ShownHours(workPerWeek: int): (s: string)
    ensures workPerWeek == 0 <==> s == ""
  {
    if workPerWeek != 0 then IntToString(workPerWeek) else ""
  }

  // =====================================================================
  // Validation and submission
  // =====================================================================

  /** The checks of `handleSubmit`; `fromInstructor` is whether the form was opened from an instructor page. */
  function Validate(r: Ratings, workPerWeek: string, fromInstructor: bool, selectedCourseId: Option<int>,
                    selectedInstructorId: Option<int>, comments: string): (errs: map<ErrorKey, string>)
    ensures OverallError in errs <==> r.overall == 0
    ensures ChallengeError in errs <==> r.challenge == 0
    ensures InclusivityError in errs <==> r.inclusivity == 0
    ensures WorkError in errs <==> workPerWeek == ""
    ensures CourseError in errs <==> fromInstructor && selectedCourseId.None?
    ensures InstructorError in errs <==> !fromInstructor && selectedInstructorId.None?
    ensures CommentsError in errs <==> Trim(comments) == ""
  {
    map k | Fails(k, r, workPerWeek, fromInstructor, selectedCourseId, selectedInstructorId, comments) :: Message(k)
  }

  /** Each error carries the message of its own check. */
  lemma ValidateMessages(r: Ratings, workPerWeek: string, fromInstructor: bool, selectedCourseId: Option<int>,
                         selectedInstructorId: Option<int>, comments: string, k: ErrorKey)
    requires k in Validate(r, workPerWeek, fromInstructor, selectedCourseId, selectedInstructorId, comments)
    ensures Validate(r, workPerWeek, fromInstructor, selectedCourseId, selectedInstructorId, comments)[k] == Message(k)
  {
  }

  /** Whether the check behind key k fails; the course and instructor checks are the two arms of one `if … else if`. */
  predicate Fails(k: ErrorKey, r: Ratings, workPerWeek: string, fromInstructor: bool, selectedCourseId: Option<int>,
                  selectedInstructorId: Option<int>, comments: string) {
    match k
    case OverallError => r.overall == 0
    case ChallengeError => r.challenge == 0
    case InclusivityError => r.inclusivity == 0
    case WorkError => workPerWeek == ""
    case CourseError => fromInstructor && selectedCourseId.None?
    case InstructorError => !fromInstructor && selectedInstructorId.None?
    case CommentsError => Trim(comments) == ""
  }

  function Message(k: ErrorKey): string {
    match k
    case OverallError => "Please select an overall rating."
    case ChallengeError => "Please select a challenge rating."
    case InclusivityError => "Please select an inclusivity rating."
    case WorkError => "Please input the average number of hours of work per week."
    case CourseError => "Please select a course for this instructor."
    case InstructorError => "Please select an instructor for this course."
    case CommentsError => "Please leave a comment."
  }

  /** An id in a URL: its digits, or "undefined" when there is none. */
  function IdText(id: Option<int>): string {
    if id.Some? then IntToString(id.value) else "undefined"
  }

  /**
   * `handleSubmit`: any error stops before the network; a failed
   * current-user lookup (`email` None) ends in the error alert; otherwise the
   * pair comes from the entry point and the form's own selection.
   */
  function Submit(r: Ratings, workPerWeek: string, comments: string, review: Option<Review>, courseId: Option<int>,
                  instructorId: Option<int>, selectedCourseId: Option<int>, selectedInstructorId: Option<int>,
                  email: Option<string>): (o: Outcome)
    ensures var errs := Validate(r, workPerWeek, instructorId.Some?, selectedCourseId, selectedInstructorId, comments);
      && (errs != map[] <==> o.Invalid?)
      && (o.Invalid? ==> o.errors == errs)
    ensures o.Send? ==>
      && email.Some? && o.payload.email == email.value
      && o.payload.workPerWeek == ParseInt(workPerWeek)
      && (instructorId.Some? ==> o.payload.courseId == selectedCourseId && o.payload.instructorId == instructorId)
      && (instructorId.None? ==> o.payload.courseId == courseId && o.payload.instructorId == selectedInstructorId)
      && (review.Some? ==> o.httpMethod == "PATCH" && o.url == "/api/courses/reviews/" + review.value.id)
      && (review.None? ==> o.httpMethod == "POST" && o.url == "/api/courses/" + IdText(o.payload.courseId) + "/reviews")
  {
    var fromInstructor := instructorId.Some?;
    var errs := Validate(r, workPerWeek, fromInstructor, selectedCourseId, selectedInstructorId, comments);
    if errs != map[] then Invalid(errs)
    else if email.None? then Failed("Error submitting review")
    else
      var pairCourse := if fromInstructor then selectedCourseId else courseId;
      var pairInstructor := if fromInstructor then instructorId else selectedInstructorId;
      var payload := Payload(r.overall, r.challenge, r.inclusivity, ParseInt(workPerWeek), comments, email.value, pairCourse, pairInstructor);
      if review.Some? then Send("PATCH", "/api/courses/reviews/" + review.value.id, payload)
      else Send("POST", "/api/courses/" + IdText(pairCourse) + "/reviews", payload)
  }

  /** A request always names the pair's entry-point side: the instructor from an instructor page, the course from a course page. */
  lemma SentPairIsComplete(r: Ratings, workPerWeek: string, comments: string, review: Option<Review>, courseId: Option<int>,
                           instructorId: Option<int>, selectedCourseId: Option<int>, selectedInstructorId: Option<int>,
                           email: Option<string>)
    requires Submit(r, workPerWeek, comments, review, courseId, instructorId, selectedCourseId, selectedInstructorId, email).Send?
    ensures var p := Submit(r, workPerWeek, comments, review, courseId, instructorId, selectedCourseId, selectedInstructorId, email).payload;
      && p.overall != 0 && p.challenge != 0 && p.inclusivity != 0 && Trim(p.comments) != ""
      && (instructorId.Some? ==> p.courseId.Some? && p.instructorId.Some?)
      && (instructorId.None? ==> p.instructorId.Some?)
  {
    var errs := Validate(r, workPerWeek, instructorId.Some?, selectedCourseId, selectedInstructorId, comments);
    assert errs == map[];
    assert OverallError !in errs && ChallengeError !in errs && InclusivityError !in errs && CommentsError !in errs;
    assert CourseError !in errs && InstructorError !in errs;
  }

  // =====================================================================
  // Form state
  // =====================================================================

  class Form {
    /** The entry point: a course page passes `courseId`, an instructor page `instructorId`. */
    const courseId: Option<int>
    const instructorId: Option<int>
    var ratings: Ratings
    var hovered: Ratings
    var workPerWeek: string
    var selectedCourseId: Option<int>
    var selectedInstructorId: Option<int>
    var comments: string
    var formErrors: map<ErrorKey, string>

    /**
     * Mounting: an existing review fills the form, the pair taken from the
     * entry point and the review; a new review preselects the entry point.
     */
    constructor (review: Option<Review>, courseId: Option<int>, instructorId: Option<int>)
      ensures this.courseId == courseId && this.instructorId == instructorId
      ensures hovered == Ratings(0, 0, 0) && formErrors == map[]
      ensures review.Some? ==>
        && ratings == Ratings(review.value.overallRating, review.value.challengeRating, review.value.inclusivityRating)
        && workPerWeek == ShownHours(review.value.workPerWeek) && comments == review.value.comments
        && (instructorId.Some? ==> selectedCourseId == Some(review.value.courseId) && selectedInstructorId == instructorId)
        && (instructorId.None? ==> selectedCourseId == courseId && selectedInstructorId == Some(review.value.instructorId))
      ensures review.None? ==>
        && ratings == Ratings(0, 0, 0) && workPerWeek == "" && comments == ""
        && (instructorId.Some? ==> selectedInstructorId == instructorId && selectedCourseId == None)
        && (instructorId.None? ==> selectedCourseId == courseId && selectedInstructorId == None)
    {
      this.courseId := courseId;
      this.instructorId := instructorId;
      hovered := Ratings(0, 0, 0);
      formErrors := map[];
      if review.Some? {
        var v := review.value;
        ratings := Ratings(v.overallRating, v.challengeRating, v.inclusivityRating);
        workPerWeek := ShownHours(v.workPerWeek);
        comments := v.comments;
        if instructorId.Some? {
          selectedCourseId := Some(v.courseId);
          selectedInstructorId := instructorId;
        } else {
          selectedCourseId := courseId;
          selectedInstructorId := Some(v.instructorId);
        }
      } else {
        ratings := Ratings(0, 0, 0);
        workPerWeek := "";
        comments := "";
        if instructorId.Some? {
          selectedInstructorId := instructorId;
          selectedCourseId := None;
        } else {
          selectedCourseId := courseId;
          selectedInstructorId := None;
        }
      }
    }

    method HandleStarClick(c: Category, value: int)
      modifies this
      ensures ratings == SetRating(old(ratings), c, value)
      ensures hovered == old(hovered) && workPerWeek == old(workPerWeek) && comments == old(comments)
      ensures selectedCourseId == old(selectedCourseId) && selectedInstructorId == old(selectedInstructorId) && formErrors == old(formErrors)
    {
      ratings := SetRating(ratings, c, value);
    }

    method HandleStarHover(c: Category, value: int)
      modifies this
      ensures hovered == SetRating(old(hovered), c, value)
      ensures ratings == old(ratings) && workPerWeek == old(workPerWeek) && comments == old(comments)
      ensures selectedCourseId == old(selectedCourseId) && selectedInstructorId == old(selectedInstructorId) && formErrors == old(formErrors)
    {
      hovered := SetRating(hovered, c, value);
    }

    method HandleStarHoverOut(c: Category)
      modifies this
      ensures hovered == SetRating(old(hovered), c, 0)
      ensures ratings == old(ratings) && workPerWeek == old(workPerWeek) && comments == old(comments)
      ensures selectedCourseId == old(selectedCourseId) && selectedInstructorId == old(selectedInstructorId) && formErrors == old(formErrors)
    {
      hovered := SetRating(hovered, c, 0);
    }

    /** Submitting: the errors are shown when there are any; `email` is the current-user lookup. */
    method HandleSubmit(review: Option<Review>, email: Option<string>) returns (o: Outcome)
      modifies this
      ensures o == Submit(ratings, workPerWeek, comments, review, courseId, instructorId, selectedCourseId, selectedInstructorId, email)
      ensures o.Invalid? ==> formErrors == o.errors
      ensures !o.Invalid? ==> formErrors == old(formErrors)
      ensures ratings == old(ratings) && hovered == old(hovered) && workPerWeek == old(workPerWeek) && comments == old(comments)
      ensures selectedCourseId == old(selectedCourseId) && selectedInstructorId == old(selectedInstructorId)
    {
      o := Submit(ratings, workPerWeek, comments, review, courseId, instructorId, selectedCourseId, selectedInstructorId, email);
      if o.Invalid? {
        formErrors := o.errors;
      }
    }
  }
}
