/**
 * The admin events dashboard: the open-forum events with their rating
 * statistics, narrowed by a status filter and a search box, sorted by a
 * chosen column, and summed up into overall analytics.
 */
module EventsDashboard {
  import opened Util

  /** The rating statistics of one event; missing statistics read as 0 everywhere. */
  datatype Stats = Stats(averageOverall: real, averageWouldRepeat: real, totalReviews: int)

  /** An event as the dashboard holds it; the date is in milliseconds. */
  datatype Event = Event(id: string, title: string, description: string, location: string, eventDate: int, stats: Option<Stats>)

  datatype StatusFilter = All | Upcoming | Past
  datatype SortField = Date | Name | Rating | Reviews | WouldRepeat
  datatype SortOrder = Asc | Desc

  // =====================================================================
  // Status filter
  // =====================================================================

  /** `filter(e => new Date(e.eventDate) > now)`. */
  function UpcomingOf(events: seq<Event>, now: int): (r: seq<Event>)
    ensures forall e :: e in r <==> e in events && e.eventDate > now
  {
    if events == [] then []
    else (if events[0].eventDate > now then [events[0]] else []) + UpcomingOf(events[1..], now)
  }

  /** `filter(e => new Date(e.eventDate) <= now)`. */
  function PastOf(events: seq<Event>, now: int): (r: seq<Event>)
    ensures forall e :: e in r <==> e in events && e.eventDate <= now
  {
    if events == [] then []
    else (if events[0].eventDate <= now then [events[0]] else []) + PastOf(events[1..], now)
  }

  function ByStatus(events: seq<Event>, f: StatusFilter, now: int): seq<Event> {
    match f
    case All => events
    case Upcoming => UpcomingOf(events, now)
    case Past => PastOf(events, now)
  }

  /** The two filters split the events: every event lands in exactly one of them, as often as it occurs. */
  lemma {:induction false} StatusPartitions(events: seq<Event>, now: int)
    ensures multiset(UpcomingOf(events, now)) + multiset(PastOf(events, now)) == multiset(events)
    ensures forall e :: e in events ==> (e in UpcomingOf(events, now) <==> e !in PastOf(events, now))
    decreases |events|
  {
    if events != [] {
      var e, rest := events[0], events[1..];
      StatusPartitions(rest, now);
      var u := if e.eventDate > now then [e] else [];
      var p := if e.eventDate <= now then [e] else [];
      assert UpcomingOf(events, now) == u + UpcomingOf(rest, now);
      assert PastOf(events, now) == p + PastOf(rest, now);
      assert multiset(u) + multiset(p) == multiset([e]);
      assert events == [e] + rest;
      assert multiset(events) == multiset([e]) + multiset(rest);
      assert multiset(UpcomingOf(events, now)) == multiset(u) + multiset(UpcomingOf(rest, now));
      assert multiset(PastOf(events, now)) == multiset(p) + multiset(PastOf(rest, now));
    }
  }

  // =====================================================================
  // Search
  // =====================================================================

  /** Title, description or location contains the lower-cased query, compared lower-cased. */
  predicate Matches(e: Event, query: string) {
    var q := ToLower(query);
    Contains(ToLower(e.title), q) || Contains(ToLower(e.description), q) || Contains(ToLower(e.location), q)
  }

  function MatchingOf(events: seq<Event>, query: string): (r: seq<Event>)
    ensures forall e :: e in r <==> e in events && Matches(e, query)
    ensures |r| <= |events|
  {
    if events == [] then []
    else (if Matches(events[0], query) then [events[0]] else []) + MatchingOf(events[1..], query)
  }

  /** The search filter applies only to a non-empty query. */
  function Search(events: seq<Event>, query: string): (r: seq<Event>)
    ensures query == "" ==> r == events
    ensures query != "" ==> forall e :: e in r <==> e in events && Matches(e, query)
  {
    if query == "" then events else MatchingOf(events, query)
  }

  // =====================================================================
  // Sorting
  // =====================================================================

  /** A statistic, or 0 for an event without statistics (`a.stats?.x || 0`). */
  function RatingOf(e: Event): real { if e.stats.Some? then e.stats.value.averageOverall else 0.0 }
  function ReviewsOf(e: Event): int { if e.stats.Some? then e.stats.value.totalReviews else 0 }
  function WouldRepeatOf(e: Event): real { if e.stats.Some? then e.stats.value.averageWouldRepeat else 0.0 }

  /** `compareValue` before the order is applied; "name" has no case and stays 0. */
  function CompareValue(a: Event, b: Event, field: SortField): real {
    match field
    case Date => (a.eventDate - b.eventDate) as real
    case Name => 0.0
    case Rating => RatingOf(a) - RatingOf(b)
    case Reviews => (ReviewsOf(a) - ReviewsOf(b)) as real
    case WouldRepeat => WouldRepeatOf(a) - WouldRepeatOf(b)
  }

  /** The comparator handed to `sort`. */
  function Compare(a: Event, b: Event, field: SortField, order: SortOrder): real {
    var v := CompareValue(a, b, field);
    if order == Asc then v else -v
  }

  /** The column value a field sorts by, used to state what the comparator means. */
  function Key(e: Event, field: SortField): real {
    match field
    case Date => e.eventDate as real
    case Name => 0.0
    case Rating => RatingOf(e)
    case Reviews => ReviewsOf(e) as real
    case WouldRepeat => WouldRepeatOf(e)
  }

  /**
   * The comparator is the key difference, negated for "desc": it is
   * antisymmetric, the two orders are opposite, and "name" compares every two
   * events as equal.
   */
  lemma CompareMeaning(a: Event, b: Event, field: SortField, order: SortOrder)
    ensures Compare(a, b, field, Asc) == Key(a, field) - Key(b, field)
    ensures Compare(a, b, field, Desc) == -Compare(a, b, field, Asc)
    ensures Compare(a, b, field, order) == -Compare(b, a, field, order)
    ensures field == Name ==> Compare(a, b, field, order) == 0.0
  {
  }

  /** a may stay in front of b: the comparator does not put b first. */
  function Le(field: SortField, order: SortOrder): (Event, Event) -> bool {
    (a: Event, b: Event) => Compare(a, b, field, order) <= 0.0
  }

  lemma LeTotalPreorder(field: SortField, order: SortOrder)
    ensures TotalPreorder(Le(field, order))
  {
    var le := Le(field, order);
    forall a, b, c | le(a, b) && le(b, c) ensures le(a, c) {
      CompareMeaning(a, b, field, order);
      CompareMeaning(b, c, field, order);
      CompareMeaning(a, c, field, order);
    }
  }

  /** `result.sort(comparator)`, stable as the language guarantees. */
  function SortEvents(events: seq<Event>, field: SortField, order: SortOrder): (r: seq<Event>)
    ensures multiset(r) == multiset(events)
    ensures order == Asc ==> forall i, j :: 0 <= i < j < |r| ==> Key(r[i], field) <= Key(r[j], field)
    ensures order == Desc ==> forall i, j :: 0 <= i < j < |r| ==> Key(r[i], field) >= Key(r[j], field)
  {
    LeTotalPreorder(field, order);
    var r := SortBy(events, Le(field, order));
    forall i, j | 0 <= i < j < |r| ensures order == Asc ==> Key(r[i], field) <= Key(r[j], field) {
      CompareMeaning(r[i], r[j], field, order);
    }
    forall i, j | 0 <= i < j < |r| ensures order == Desc ==> Key(r[i], field) >= Key(r[j], field) {
      CompareMeaning(r[i], r[j], field, order);
    }
    r
  }

  /** A comparator that never separates two events leaves an insertion unchanged. */
  lemma {:induction false} InsertByFirst(x: Event, s: seq<Event>, le: (Event, Event) -> bool)
    requires forall a, b :: le(a, b)
    ensures InsertBy(x, s, le) == [x] + s
  {
    if s != [] {
      assert le(x, s[0]);
    }
  }

  /** Sorting by "name" keeps the filtered order: the comparator is always 0 and the sort is stable. */
  lemma {:induction false} SortByNameKeepsOrder(events: seq<Event>, order: SortOrder)
    ensures SortEvents(events, Name, order) == events
    decreases |events|
  {
    LeTotalPreorder(Name, order);
    var le := Le(Name, order);
    forall a, b ensures le(a, b) {
      CompareMeaning(a, b, Name, order);
    }
    if events != [] {
      SortByNameKeepsOrder(events[1..], order);
      InsertByFirst(events[0], SortBy(events[1..], le), le);
      assert events == [events[0]] + events[1..];
    }
  }

  /** The list the dashboard shows: status filter, then search, then sort. */
  function Shown(events: seq<Event>, f: StatusFilter, query: string, field: SortField, order: SortOrder, now: int): seq<Event> {
    SortEvents(Search(ByStatus(events, f, now), query), field, order)
  }

  /** The shown list holds exactly the events that pass both filters, each as often as it passed. */
  lemma ShownMembers(events: seq<Event>, f: StatusFilter, query: string, field: SortField, order: SortOrder, now: int, e: Event)
    ensures e in Shown(events, f, query, field, order, now) <==>
      && e in events
      && (f == Upcoming ==> e.eventDate > now)
      && (f == Past ==> e.eventDate <= now)
      && (query != "" ==> Matches(e, query))
  {
    var s := Search(ByStatus(events, f, now), query);
    assert e in Shown(events, f, query, field, order, now) <==> e in multiset(s);
  }

  /** `handleSort`: the same column flips the order; a new column is selected descending. */
  function NextSort(field: SortField, order: SortOrder, clicked: SortField): (r: (SortField, SortOrder))
    ensures r.0 == clicked
    ensures clicked == field ==> r.1 != order
    ensures clicked != field ==> r.1 == Desc
  {
    if field == clicked then (field, if order == Asc then Desc else Asc) else (clicked, Desc)
  }

  /** Clicking the same column twice restores the order. */
  lemma {:induction false} SortTwiceRestores(field: SortField, order: SortOrder, clicked: SortField)
    ensures var (f1, o1) := NextSort(field, order, clicked);
      clicked == field ==> NextSort(f1, o1, clicked) == (field, order)
  {
  }

  // =====================================================================
  // Analytics
  // =====================================================================

  datatype Analytics = Analytics(totalEvents: nat, totalReviews: int, averageRating: real, averageWouldRepeat: real,
                                 averageReviewsPerEvent: real, mostReviewedEvent: string, highestRatedEvent: string)

  /** `e.stats && e.stats.totalReviews > 0`. */
  predicate Reviewed(e: Event) { e.stats.Some? && e.stats.value.totalReviews > 0 }

  function ReviewedOf(events: seq<Event>): (r: seq<Event>)
    ensures forall e :: e in r <==> e in events && Reviewed(e)
    ensures |r| <= |events|
  {
    if events == [] then [] else (if Reviewed(events[0]) then [events[0]] else []) + ReviewedOf(events[1..])
  }

  function SumReviews(s: seq<Event>): int {
    if s == [] then 0 else ReviewsOf(s[0]) + SumReviews(s[1..])
  }

  function SumWeighted(s: seq<Event>, stat: Event -> real): real {
    if s == [] then 0.0 else stat(s[0]) * (ReviewsOf(s[0]) as real) + SumWeighted(s[1..], stat)
  }

  /** Every reviewed event adds at least one review. */
  lemma {:induction false} SumReviewsAtLeastCount(s: seq<Event>)
    requires forall e :: e in s ==> Reviewed(e)
    ensures SumReviews(s) >= |s|
    decreases |s|
  {
    if s != [] {
      assert s[0] in s;
      SumReviewsAtLeastCount(s[1..]);
    }
  }

  lemma RatioAtLeastOne(total: int, n: int)
    requires total >= n > 0
    ensures (total as real) / (n as real) >= 1.0
  {
    assert (total as real) >= (n as real);
  }

  /** `title || 'N/A'`. */
  function TitleOr(e: Event): string { if e.title == "" then "N/A" else e.title }

  /**
   * `calculateOverallAnalytics`: None when no event has a review (the state
   * is left as it was); otherwise the sums over the reviewed events, and the
   * first event of each descending sort as the most reviewed and the highest rated.
   */
  function ComputeAnalytics(events: seq<Event>): (r: Option<Analytics>)
    ensures r.None? <==> forall e :: e in events ==> !Reviewed(e)
    ensures r.Some? ==>
      && r.value.totalEvents == |events|
      && r.value.totalReviews == SumReviews(ReviewedOf(events))
      && r.value.totalReviews >= |ReviewedOf(events)| > 0
      && r.value.averageReviewsPerEvent >= 1.0
  {
    var reviewed := ReviewedOf(events);
    if reviewed == [] then
      assert forall e :: e in events ==> !Reviewed(e);
      None
    else
      assert reviewed[0] in reviewed;
      SumReviewsAtLeastCount(reviewed);
      var total := SumReviews(reviewed);
      RatioAtLeastOne(total, |reviewed|);
      var mostReviewed := Leader(reviewed, Reviews);
      var highestRated := Leader(reviewed, Rating);
      Some(Analytics(|events|, total, SumWeighted(reviewed, RatingOf) / (total as real), SumWeighted(reviewed, WouldRepeatOf) / (total as real),
        (total as real) / (|reviewed| as real), TitleOr(mostReviewed), TitleOr(highestRated)))
  }

  /** The analytics after a load: recomputed, or kept when no event has a review. */
  function UpdatedAnalytics(current: Analytics, events: seq<Event>): (r: Analytics)
    ensures (forall e :: e in events ==> !Reviewed(e)) ==> r == current
    ensures (exists e :: e in events && Reviewed(e)) ==> Some(r) == ComputeAnalytics(events)
  {
    match ComputeAnalytics(events)
    case None => current
    case Some(a) => a
  }

  /**
   * `[...s].sort(desc)[0]`: the first event whose key no other event
   * exceeds, since the sort is stable.
   */
  function Leader(s: seq<Event>, field: SortField): (r: Event)
    requires s != []
    ensures r in s
    ensures forall e :: e in s ==> Key(e, field) <= Key(r, field)
    decreases |s|
  {
    if |s| == 1 then s[0]
    else
      var m := Leader(s[1..], field);
      assert forall e :: e in s ==> e == s[0] || e in s[1..];
      if Key(s[0], field) >= Key(m, field) then s[0] else m
  }

  /** The descending comparator keeps a in front of b exactly when a's key is at least b's. */
  lemma DescLeMeaning(a: Event, b: Event, field: SortField)
    ensures Le(field, Desc)(a, b) <==> Key(a, field) >= Key(b, field)
  {
    CompareMeaning(a, b, field, Desc);
  }

  /** Taking the first event of the stable descending sort picks the leader. */
  lemma {:induction false} LeaderIsFirstOfSort(s: seq<Event>, field: SortField)
    requires s != []
    ensures SortEvents(s, field, Desc)[0] == Leader(s, field)
    decreases |s|
  {
    LeTotalPreorder(field, Desc);
    SortByHead(s, Le(field, Desc), field);
  }

  lemma {:induction false} SortByHead(s: seq<Event>, le: (Event, Event) -> bool, field: SortField)
    requires s != [] && le == Le(field, Desc) && TotalPreorder(le)
    ensures SortBy(s, le)[0] == Leader(s, field)
    decreases |s|
  {
    var t := SortBy(s[1..], le);
    assert SortBy(s, le) == InsertBy(s[0], t, le);
    if |s| == 1 {
      assert t == [];
    } else {
      SortByHead(s[1..], le, field);
      DescLeMeaning(s[0], t[0], field);
    }
  }

  /** The most reviewed event shown is a reviewed event with as many reviews as any other; likewise for the highest rated. */
  lemma AnalyticsNamesTheLeaders(events: seq<Event>)
    requires exists e :: e in events && Reviewed(e)
    ensures var reviewed := ReviewedOf(events);
      var most := Leader(reviewed, Reviews);
      var best := Leader(reviewed, Rating);
      && ComputeAnalytics(events).Some?
      && ComputeAnalytics(events).value.mostReviewedEvent == TitleOr(most)
      && ComputeAnalytics(events).value.highestRatedEvent == TitleOr(best)
      && most in events && Reviewed(most) && (forall e :: e in events && Reviewed(e) ==> ReviewsOf(e) <= ReviewsOf(most))
      && best in events && Reviewed(best) && (forall e :: e in events && Reviewed(e) ==> RatingOf(e) <= RatingOf(best))
  {
    var reviewed := ReviewedOf(events);
    var e0 :| e0 in events && Reviewed(e0);
    assert e0 in reviewed;
  }

  // =====================================================================
  // Page state
  // =====================================================================

  /** What the page does once the session is known. */
  datatype LoadStep = WaitForAuth | FetchEvents | StopLoading

  /** The fetch runs only for an administrator, and only after the session has loaded. */
  function OnAuth(authLoading: bool, isAdmin: bool): (r: LoadStep)
    ensures r == FetchEvents <==> !authLoading && isAdmin
    ensures r == WaitForAuth <==> authLoading
  {
    if authLoading then WaitForAuth else if isAdmin then FetchEvents else StopLoading
  }

  class Dashboard {
    var events: seq<Event>
    var filteredEvents: seq<Event>
    var searchQuery: string
    var sortField: SortField
    var sortOrder: SortOrder
    var statusFilter: StatusFilter
    var analytics: Analytics

    /** The initial state: no events, sorted by date descending, all statuses, zeroed analytics. */
    constructor ()
      ensures events == [] && filteredEvents == [] && searchQuery == ""
      ensures sortField == Date && sortOrder == Desc && statusFilter == All
      ensures analytics == Analytics(0, 0, 0.0, 0.0, 0.0, "", "")
    {
      events := [];
      filteredEvents := [];
      searchQuery := "";
      sortField := Date;
      sortOrder := Desc;
      statusFilter := All;
      analytics := Analytics(0, 0, 0.0, 0.0, 0.0, "", "");
    }

    /** The events arrive with their statistics; the analytics update only when some event has a review. */
    method Loaded(withStats: seq<Event>)
      modifies this
      ensures events == withStats
      ensures analytics == UpdatedAnalytics(old(analytics), withStats)
      ensures filteredEvents == old(filteredEvents) && searchQuery == old(searchQuery)
      ensures sortField == old(sortField) && sortOrder == old(sortOrder) && statusFilter == old(statusFilter)
    {
      events := withStats;
      analytics := UpdatedAnalytics(analytics, withStats);
    }

    method HandleSort(field: SortField)
      modifies this
      ensures (sortField, sortOrder) == NextSort(old(sortField), old(sortOrder), field)
      ensures events == old(events) && filteredEvents == old(filteredEvents) && searchQuery == old(searchQuery)
      ensures statusFilter == old(statusFilter) && analytics == old(analytics)
    {
      if sortField == field {
        sortOrder := if sortOrder == Asc then Desc else Asc;
      } else {
        sortField := field;
        sortOrder := Desc;
      }
    }

    method SetSearchQuery(query: string)
      modifies this
      ensures searchQuery == query
      ensures events == old(events) && filteredEvents == old(filteredEvents) && sortField == old(sortField)
      ensures sortOrder == old(sortOrder) && statusFilter == old(statusFilter) && analytics == old(analytics)
    {
      searchQuery := query;
    }

    method SetStatusFilter(f: StatusFilter)
      modifies this
      ensures statusFilter == f
      ensures events == old(events) && filteredEvents == old(filteredEvents) && sortField == old(sortField)
      ensures sortOrder == old(sortOrder) && searchQuery == old(searchQuery) && analytics == old(analytics)
    {
      statusFilter := f;
    }

    /** The effect that recomputes the shown list whenever its inputs change; `now` is the clock's reading. */
    method Refresh(now: int)
      modifies this
      ensures filteredEvents == Shown(events, statusFilter, searchQuery, sortField, sortOrder, now)
      ensures events == old(events) && searchQuery == old(searchQuery) && sortField == old(sortField)
      ensures sortOrder == old(sortOrder) && statusFilter == old(statusFilter) && analytics == old(analytics)
    {
      filteredEvents := Shown(events, statusFilter, searchQuery, sortField, sortOrder, now);
    }
  }
}
