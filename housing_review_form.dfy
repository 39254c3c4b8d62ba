/**
 * The room review form of the housing pages: four star ratings, a comment
 * and pictures. Every failed check adds its own error and any error stops
 * the submission; otherwise the fields and the chosen files go out as form
 * data, PATCHed to the review when editing and POSTed to the room when new.
 */
module HousingReviewForm {
  import opened Util
  import CourseReviewForm

  datatype Category = Overall | Quiet | Layout | Temperature

  datatype Ratings = Ratings(overall: int, quiet: int, layout: int, temperature: int)

  /** A chosen file, known by its name. */
  datatype File = File(name: string)

  /** An existing review; absent ratings read as 0 and an absent comment as "". */
  datatype Review = Review(id: string, overallRating: int, quietRating: int, layoutRating: int,
                           temperatureRating: int, comments: string, pictures: Option<seq<string>>)

  /** The keys of `formErrors`: "overall", "quiet", "layout", "temperature", "comments". */
  datatype ErrorKey = OverallError | QuietError | LayoutError | TemperatureError | CommentsError

  /** One entry of the request's form data. */
  datatype FormValue = Text(text: string) | Upload(file: File)

  datatype Outcome = Invalid(errors: map<ErrorKey, string>) | Failed(message: string)
                   | Send(httpMethod: string, url: string, form: seq<(string, FormValue)>)

  function Rating(r: Ratings, c: Category): int {
    match c
    case Overall => r.overall
    case Quiet => r.quiet
    case Layout => r.layout
    case Temperature => r.temperature
  }

  /** `handleStarClick`: sets one category and keeps the others. */
  function SetRating(r: Ratings, c: Category, value: int): (s: Ratings)
    ensures Rating(s, c) == value
    ensures forall d :: d != c ==> Rating(s, d) == Rating(r, d)
  {
    match c
    case Overall => r.(overall := value)
    case Quiet => r.(quiet := value)
    case Layout => r.(layout := value)
    case Temperature => r.(temperature := value)
  }

  /** The ratings a form starts from: the review's own, or none chosen. */
  function InitialRatings(review: Option<Review>): (r: Ratings)
    ensures review.None? ==> forall c :: Rating(r, c) == 0
    ensures review.Some? ==>
      && r.overall == review.value.overallRating && r.quiet == review.value.quietRating
      && r.layout == review.value.layoutRating && r.temperature == review.value.temperatureRating
  {
    if review.Some? then
      Ratings(review.value.overallRating, review.value.quietRating, review.value.layoutRating, review.value.temperatureRating)
    else Ratings(0, 0, 0, 0)
  }

  // =====================================================================
  // Picture addresses
  // =====================================================================

  const PicturePrefix: string := "/api/campus/housing/review_pictures/"

  /** The loop that gives each stored picture of a review its address, in order. */
  method StoredPictureUrls(pictures: seq<string>) returns (urls: seq<string>)
    ensures |urls| == |pictures|
    ensures forall i :: 0 <= i < |pictures| ==> urls[i] == PicturePrefix + pictures[i]
  {
    urls := [];
    var i := 0;
    while i < |pictures|
      invariant 0 <= i <= |pictures|
      invariant |urls| == i
      invariant forall j :: 0 <= j < i ==> urls[j] == PicturePrefix + pictures[j]
    {
      urls := urls + [PicturePrefix + pictures[i]];
      i := i + 1;
    }
  }

  /** Each address names its picture: the name is what follows the prefix. */
  lemma StoredPictureNamed(picture: string)
    ensures (PicturePrefix + picture)[|PicturePrefix|..] == picture
    ensures StartsWith(PicturePrefix + picture, PicturePrefix)
  {
    assert (PicturePrefix + picture)[..|PicturePrefix|] == PicturePrefix;
  }

  /** The loop that gives each newly chosen file a preview address from the browser (`URL.createObjectURL`). */
  method PreviewUrls(files: seq<File>, objectUrl: File -> string) returns (urls: seq<string>)
    ensures |urls| == |files|
    ensures forall i :: 0 <= i < |files| ==> urls[i] == objectUrl(files[i])
  {
    urls := [];
    var i := 0;
    while i < |files|
      invariant 0 <= i <= |files|
      invariant |urls| == i
      invariant forall j :: 0 <= j < i ==> urls[j] == objectUrl(files[j])
    {
      urls := urls + [objectUrl(files[i])];
      i := i + 1;
    }
  }

  // =====================================================================
  // Validation and submission
  // =====================================================================

  predicate Fails(k: ErrorKey, r: Ratings, comments: string) {
    match k
    case OverallError => r.overall == 0
    case QuietError => r.quiet == 0
    case LayoutError => r.layout == 0
    case TemperatureError => r.temperature == 0
    case CommentsError => Trim(comments) == ""
  }

  function Message(k: ErrorKey): string {
    match k
    case OverallError => "Please select an overall rating."
    case QuietError => "Please select a quiet rating."
    case LayoutError => "Please select a layout rating."
    case TemperatureError => "Please select a temperature rating."
    case CommentsError => "Please leave a comment."
  }

  /** The checks of `handleSubmit`. */
  function Validate(r: Ratings, comments: string): (errs: map<ErrorKey, string>)
    ensures OverallError in errs <==> r.overall == 0
    ensures QuietError in errs <==> r.quiet == 0
    ensures LayoutError in errs <==> r.layout == 0
    ensures TemperatureError in errs <==> r.temperature == 0
    ensures CommentsError in errs <==> Trim(comments) == ""
  {
    map k | Fails(k, r, comments) :: Message(k)
  }

  /** One "pictures" entry per chosen file, in order. */
  function PictureEntries(files: seq<File>): (e: seq<(string, FormValue)>)
    ensures |e| == |files|
    ensures forall i :: 0 <= i < |files| ==> e[i] == ("pictures", Upload(files[i]))
  {
    if files == [] then [] else [("pictures", Upload(files[0]))] + PictureEntries(files[1..])
  }

  /** The form data: the four ratings as text, the comment, the sender's email, then the files. */
  function FormData(r: Ratings, comments: string, email: string, pictures: Option<seq<File>>): (form: seq<(string, FormValue)>)
    ensures |form| == 6 + (if pictures.Some? then |pictures.value| else 0)
    ensures form[..6] == [("overall", Text(RatingText(r, Overall))), ("quiet", Text(RatingText(r, Quiet))),
                          ("layout", Text(RatingText(r, Layout))), ("temperature", Text(RatingText(r, Temperature))),
                          ("comments", Text(comments)), ("email", Text(email))]
    ensures pictures.Some? ==> form[6..] == PictureEntries(pictures.value)
  {
    [("overall", Text(RatingText(r, Overall))), ("quiet", Text(RatingText(r, Quiet))),
     ("layout", Text(RatingText(r, Layout))), ("temperature", Text(RatingText(r, Temperature))),
     ("comments", Text(comments)), ("email", Text(email))]
    + (if pictures.Some? then PictureEntries(pictures.value) else [])
  }

  /** A rating as the form data carries it (`toString()`). */
  function RatingText(r: Ratings, c: Category): string {
    IntToString(Rating(r, c))
  }

  /** The server reads a chosen star back from its text. */
  lemma RatingTextRoundTrip(r: Ratings, c: Category)
    requires Rating(r, c) >= 0
    ensures CourseReviewForm.ParseInt(RatingText(r, c)) == Some(Rating(r, c))
  {
    CourseReviewForm.ParseShownNumber(Rating(r, c));
  }

  /**
   * `handleSubmit`: any error stops before the network, a failed
   * current-user lookup ends in the error alert; otherwise the review goes to
   * its own address when editing or to the building and room of the route.
   */
  function Submit(r: Ratings, comments: string, pictures: Option<seq<File>>, review: Option<Review>,
                  building: string, room: string, email: Option<string>): (o: Outcome)
    ensures var errs := Validate(r, comments);
      && (errs != map[] <==> o.Invalid?)
      && (o.Invalid? ==> o.errors == errs)
    ensures !o.Invalid? && email.None? ==> o == Failed("Error submitting review")
    ensures o.Send? ==>
      && email.Some? && o.form == FormData(r, comments, email.value, pictures)
      && (review.Some? ==> o.httpMethod == "PATCH" && o.url == "/api/campus/housing/reviews/" + review.value.id)
      && (review.None? ==> o.httpMethod == "POST" && o.url == "/api/campus/housing/" + building + "/" + room + "/reviews")
  {
    var errs := Validate(r, comments);
    if errs != map[] then Invalid(errs)
    else if email.None? then Failed("Error submitting review")
    else
      var form := FormData(r, comments, email.value, pictures);
      if review.Some? then Send("PATCH", "/api/campus/housing/reviews/" + review.value.id, form)
      else Send("POST", "/api/campus/housing/" + building + "/" + room + "/reviews", form)
  }

  /** A request always carries four chosen ratings, a comment and every chosen file. */
  lemma SentReviewIsComplete(r: Ratings, comments: string, pictures: Option<seq<File>>, review: Option<Review>,
                             building: string, room: string, email: Option<string>)
    requires Submit(r, comments, pictures, review, building, room, email).Send?
    ensures r.overall != 0 && r.quiet != 0 && r.layout != 0 && r.temperature != 0 && Trim(comments) != ""
    ensures var form := Submit(r, comments, pictures, review, building, room, email).form;
      forall f :: pictures.Some? && f in pictures.value ==> ("pictures", Upload(f)) in form
  {
    var errs := Validate(r, comments);
    assert errs == map[];
    assert OverallError !in errs && QuietError !in errs && LayoutError !in errs;
    assert TemperatureError !in errs && CommentsError !in errs;
    var form := Submit(r, comments, pictures, review, building, room, email).form;
    forall f | pictures.Some? && f in pictures.value
      ensures ("pictures", Upload(f)) in form
    {
      var i :| 0 <= i < |pictures.value| && pictures.value[i] == f;
      assert form[6 + i] == form[6..][i];
    }
  }

  // =====================================================================
  // Form state
  // =====================================================================

  class Form {
    var ratings: Ratings
    var hovered: Ratings
    var comments: string
    var pictures: Option<seq<File>>
    var pictureUrls: Option<seq<string>>
    var formErrors: map<ErrorKey, string>

    /** Mounting: the review's ratings and comment, and one address per stored picture. */
    constructor (review: Option<Review>)
      ensures ratings == InitialRatings(review) && hovered == Ratings(0, 0, 0, 0)
      ensures pictures == None && formErrors == map[]
      ensures review.None? ==> comments == "" && pictureUrls == None
      ensures review.Some? ==> comments == review.value.comments && pictureUrls.Some?
      ensures review.Some? ==>
        var stored := if review.value.pictures.Some? then review.value.pictures.value else [];
        && |pictureUrls.value| == |stored|
        && forall i :: 0 <= i < |stored| ==> pictureUrls.value[i] == PicturePrefix + stored[i]
    {
      ratings := InitialRatings(review);
      hovered := Ratings(0, 0, 0, 0);
      pictures := None;
      formErrors := map[];
      if review.Some? {
        comments := review.value.comments;
        var urls := StoredPictureUrls(if review.value.pictures.Some? then review.value.pictures.value else []);
        pictureUrls := Some(urls);
      } else {
        comments := "";
        pictureUrls := None;
      }
    }

    method HandleStarClick(c: Category, value: int)
      modifies this
      ensures ratings == SetRating(old(ratings), c, value)
      ensures hovered == old(hovered) && comments == old(comments) && pictures == old(pictures)
      ensures pictureUrls == old(pictureUrls) && formErrors == old(formErrors)
    {
      ratings := SetRating(ratings, c, value);
    }

    method HandleStarHover(c: Category, value: int)
      modifies this
      ensures hovered == SetRating(old(hovered), c, value)
      ensures ratings == old(ratings) && comments == old(comments) && pictures == old(pictures)
      ensures pictureUrls == old(pictureUrls) && formErrors == old(formErrors)
    {
      hovered := SetRating(hovered, c, value);
    }

    method HandleStarHoverOut(c: Category)
      modifies this
      ensures hovered == SetRating(old(hovered), c, 0)
      ensures ratings == old(ratings) && comments == old(comments) && pictures == old(pictures)
      ensures pictureUrls == old(pictureUrls) && formErrors == old(formErrors)
    {
      hovered := SetRating(hovered, c, 0);
    }

    /** `handlePicturesChange`: the chosen files replace the previews with one browser address each. */
    method HandlePicturesChange(files: Option<seq<File>>, objectUrl: File -> string)
      modifies this
      ensures pictures == files && pictureUrls.Some?
      ensures files.None? ==> pictureUrls == Some([])
      ensures files.Some? ==>
        && |pictureUrls.value| == |files.value|
        && forall i :: 0 <= i < |files.value| ==> pictureUrls.value[i] == objectUrl(files.value[i])
      ensures ratings == old(ratings) && hovered == old(hovered) && comments == old(comments) && formErrors == old(formErrors)
    {
      pictures := files;
      var urls := PreviewUrls(if files.Some? then files.value else [], objectUrl);
      pictureUrls := Some(urls);
    }

    /** Submitting; `building` and `room` are the route's parameters, `email` the current-user lookup. */
    method HandleSubmit(review: Option<Review>, building: string, room: string, email: Option<string>) returns (o: Outcome)
      modifies this
      ensures o == Submit(ratings, comments, pictures, review, building, room, email)
      ensures o.Invalid? ==> formErrors == o.errors
      ensures !o.Invalid? ==> formErrors == old(formErrors)
      ensures ratings == old(ratings) && hovered == old(hovered) && comments == old(comments)
      ensures pictures == old(pictures) && pictureUrls == old(pictureUrls)
    {
      o := Submit(ratings, comments, pictures, review, building, room, email);
      if o.Invalid? {
        formErrors := o.errors;
      }
    }
  }
}
