/**
 * The public open-forum bulletin board: the events narrowed by a past,
 * upcoming or all filter, each with a status label and colour computed from
 * the whole days left until it, and a rating count.
 */
module OpenForumPage {
  import opened Util

  /** An event as the board reads it; the date is in milliseconds. */
  datatype Event = Event(id: string, title: string, eventDate: int, ratings: Option<seq<string>>)

  datatype Filter = All | Past | Upcoming

  /** The board opens on past events. */
  const DefaultFilter: Filter := Past

  const DayMs: int := 86400000

  /** `filterEvents`: past keeps the events before now, upcoming those at or after now, all keeps everything. */
  function FilterEvents(events: seq<Event>, filter: Filter, now: int): (r: seq<Event>)
    ensures |r| <= |events|
    ensures forall e :: e in r <==> e in events && (filter == Past ==> e.eventDate < now) && (filter == Upcoming ==> e.eventDate >= now)
    ensures filter == All ==> r == events
  {
    if events == [] then []
    else
      var keep := match filter
        case Past => events[0].eventDate < now
        case Upcoming => events[0].eventDate >= now
        case All => true;
      (if keep then [events[0]] else []) + FilterEvents(events[1..], filter, now)
  }

  /** Past and upcoming split the events between them. */
  lemma {:induction false} FiltersPartition(events: seq<Event>, now: int)
    ensures multiset(FilterEvents(events, Past, now)) + multiset(FilterEvents(events, Upcoming, now)) == multiset(events)
    decreases |events|
  {
    if events != [] {
      var e, rest := events[0], events[1..];
      FiltersPartition(rest, now);
      var p := if e.eventDate < now then [e] else [];
      var u := if e.eventDate >= now then [e] else [];
      assert FilterEvents(events, Past, now) == p + FilterEvents(rest, Past, now);
      assert FilterEvents(events, Upcoming, now) == u + FilterEvents(rest, Upcoming, now);
      assert multiset(p) + multiset(u) == multiset([e]);
      assert events == [e] + rest;
      assert multiset(events) == multiset([e]) + multiset(rest);
      assert multiset(FilterEvents(events, Past, now)) == multiset(p) + multiset(FilterEvents(rest, Past, now));
      assert multiset(FilterEvents(events, Upcoming, now)) == multiset(u) + multiset(FilterEvents(rest, Upcoming, now));
    }
  }

  /** `Math.ceil((event - now) / (1000 * 60 * 60 * 24))`; a fraction of a day before now rounds up to 0. */
  function DiffDays(eventMs: int, nowMs: int): (d: int)
    ensures (d - 1) * DayMs < eventMs - nowMs <= d * DayMs
  {
    -((nowMs - eventMs) / DayMs)
  }

  /** A day count is past only a whole day or more before now, and an upcoming event never counts as past. */
  lemma DiffDaysSign(eventMs: int, nowMs: int)
    ensures DiffDays(eventMs, nowMs) < 0 <==> eventMs - nowMs <= -DayMs
    ensures DiffDays(eventMs, nowMs) == 0 <==> -DayMs < eventMs - nowMs <= 0
    ensures eventMs >= nowMs ==> DiffDays(eventMs, nowMs) >= 0
  {
    var d := DiffDays(eventMs, nowMs);
    if d < 0 {
      assert d * DayMs <= -DayMs;
    }
    if d >= 1 {
      assert (d - 1) * DayMs >= 0;
    }
  }

  /** `getEventStatusText`. */
  function StatusText(diffDays: int): string {
    if diffDays < 0 then "Past Event"
    else if diffDays == 0 then "Today"
    else if diffDays == 1 then "Tomorrow"
    else if diffDays <= 7 then "In " + IntToString(diffDays) + " days"
    else "Upcoming"
  }

  datatype Colour = Gray | Yellow | Blue

  /** `getEventStatusColor`: gray for past, yellow within a week, blue beyond. */
  function StatusColour(diffDays: int): Colour {
    if diffDays < 0 then Gray else if diffDays <= 7 then Yellow else Blue
  }

  /** The label and the colour agree: gray exactly for "Past Event", blue exactly for "Upcoming", yellow for the week ahead. */
  lemma {:induction false} StatusAgrees(diffDays: int)
    ensures StatusColour(diffDays) == Gray <==> StatusText(diffDays) == "Past Event"
    ensures StatusColour(diffDays) == Blue <==> StatusText(diffDays) == "Upcoming"
    ensures StatusColour(diffDays) == Yellow <==>
      StatusText(diffDays) in {"Today", "Tomorrow"} || (2 <= diffDays <= 7 && StatusText(diffDays) == "In " + IntToString(diffDays) + " days")
  {
    if 2 <= diffDays <= 7 {
      var t := StatusText(diffDays);
      assert t[..3] == "In ";
      assert t != "Upcoming" by { assert "Upcoming"[..3] == "Upc"; }
      assert t != "Past Event" by { assert "Past Event"[..3] == "Pas"; }
      assert t != "Today" by { assert "Today"[..3] == "Tod"; }
      assert t != "Tomorrow" by { assert "Tomorrow"[..3] == "Tom"; }
    }
  }

  /** `{count} rating{count !== 1 ? 's' : ''}`, a missing list counting as 0. */
  function RatingLabel(e: Event): (r: string)
    ensures var n := if e.ratings.Some? then |e.ratings.value| else 0;
      r == NatToString(n) + (if n == 1 then " rating" else " ratings")
  {
    var n := if e.ratings.Some? then |e.ratings.value| else 0;
    NatToString(n) + " rating" + (if n != 1 then "s" else "")
  }

  class Board {
    var events: seq<Event>
    var filter: Filter

    constructor ()
      ensures events == [] && filter == DefaultFilter
    {
      events := [];
      filter := DefaultFilter;
    }

    method Loaded(data: seq<Event>)
      modifies this
      ensures events == data && filter == old(filter)
    {
      events := data;
    }

    method SetFilter(f: Filter)
      modifies this
      ensures filter == f && events == old(events)
    {
      filter := f;
    }

    /** The events rendered at time `now`. */
    function Shown(now: int): seq<Event>
      reads this
    {
      FilterEvents(events, filter, now)
    }
  }
}
