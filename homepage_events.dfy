/**
 * The homepage events carousel: three events per page, previous and next
 * buttons that stop at the first and last page, and a page label.
 */
module HomepageEvents {
  const EventsPerPage: nat := 3

  /** `Math.ceil(n / 3)`. */
  function TotalPages(n: nat): (t: nat)
    ensures t * EventsPerPage >= n && (t == 0 || (t - 1) * EventsPerPage < n)
    ensures n == 0 <==> t == 0
  {
    (n + EventsPerPage - 1) / EventsPerPage
  }

  /** The start index `Array.prototype.slice` uses for a (possibly negative) start on a list of length len. */
  function SliceIndex(i: int, len: nat): (r: nat)
    ensures r <= len
    ensures 0 <= i <= len ==> r == i
  {
    if i < 0 then (if len + i < 0 then 0 else len + i) else if i > len then len else i
  }

  /** `s.slice(start, end)`. */
  function Slice<T>(s: seq<T>, start: int, end: int): (r: seq<T>)
    ensures |r| <= |s|
  {
    var a := SliceIndex(start, |s|);
    var b := SliceIndex(end, |s|);
    if a < b then s[a..b] else []
  }

  /** The events of a page. */
  function Visible<T>(events: seq<T>, page: int): (r: seq<T>)
    ensures |r| <= EventsPerPage
    ensures 0 <= page && page * EventsPerPage <= |events| ==>
      r == events[page * EventsPerPage..if page * EventsPerPage + EventsPerPage <= |events| then page * EventsPerPage + EventsPerPage else |events|]
  {
    var start := page * EventsPerPage;
    Slice(events, start, start + EventsPerPage)
  }

  /** The pages from `from` on, concatenated. */
  function PagesFrom<T>(events: seq<T>, from: nat): seq<T>
    decreases TotalPages(|events|) - from
  {
    if from >= TotalPages(|events|) then [] else Visible(events, from) + PagesFrom(events, from + 1)
  }

  /** Paging through every page shows each event exactly once, in order. */
  lemma {:induction false} PagesCover<T>(events: seq<T>, from: nat)
    requires from <= TotalPages(|events|)
    ensures PagesFrom(events, from) == events[if from * EventsPerPage <= |events| then from * EventsPerPage else |events|..]
    decreases TotalPages(|events|) - from
  {
    if from < TotalPages(|events|) {
      PagesCover(events, from + 1);
      var a := from * EventsPerPage;
      assert a < |events|;
      if a + EventsPerPage <= |events| {
        assert events[a..] == events[a..a + EventsPerPage] + events[a + EventsPerPage..];
      } else {
        assert (from + 1) * EventsPerPage > |events|;
        assert events[a..] == events[a..|events|] + events[|events|..];
      }
    } else {
      assert from * EventsPerPage >= |events|;
    }
  }

  /** What the carousel shows. */
  datatype View<T> = NoUpcomingEvents | Page(shown: seq<T>, previousDisabled: bool, nextDisabled: bool, page: int, of: nat)

  class Carousel<T> {
    const events: seq<T>
    var currentPage: int

    /** The page is a real one whenever there are events. */
    ghost predicate Valid()
      reads this
    {
      |events| > 0 ==> 0 <= currentPage < TotalPages(|events|)
    }

    constructor (events: seq<T>)
      ensures Valid() && this.events == events && currentPage == 0
    {
      this.events := events;
      currentPage := 0;
    }

    function Render(): (v: View<T>)
      reads this
      ensures |events| == 0 <==> v.NoUpcomingEvents?
      ensures v.Page? ==> |v.shown| <= EventsPerPage && v.page == currentPage + 1 && v.of == TotalPages(|events|)
      ensures v.Page? ==> (v.previousDisabled <==> currentPage == 0) && (v.nextDisabled <==> currentPage >= TotalPages(|events|) - 1)
    {
      if |events| == 0 then NoUpcomingEvents
      else Page(Visible(events, currentPage), currentPage == 0, currentPage >= TotalPages(|events|) - 1,
                currentPage + 1, TotalPages(|events|))
    }

    /** `handlePrevious`: one page back, never below the first. */
    method HandlePrevious()
      requires Valid()
      modifies this
      ensures Valid()
      ensures currentPage == if old(currentPage) - 1 < 0 then 0 else old(currentPage) - 1
    {
      currentPage := if currentPage - 1 < 0 then 0 else currentPage - 1;
    }

    /** `handleNext`: one page on, never past the last (the buttons only exist while there are events). */
    method HandleNext()
      requires Valid() && |events| > 0
      modifies this
      ensures Valid()
      ensures currentPage == if TotalPages(|events|) - 1 < old(currentPage) + 1 then TotalPages(|events|) - 1 else old(currentPage) + 1
    {
      var last := TotalPages(|events|) - 1;
      currentPage := if last < currentPage + 1 then last else currentPage + 1;
    }
  }

  /** A non-empty page shows between one and three events, and only the last page may show fewer than three. */
  lemma PageSizes<T>(events: seq<T>, page: nat)
    requires page < TotalPages(|events|)
    ensures 1 <= |Visible(events, page)| <= EventsPerPage
    ensures page < TotalPages(|events|) - 1 ==> |Visible(events, page)| == EventsPerPage
  {
  }
}
