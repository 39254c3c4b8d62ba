/**
 * The Engage events feed: events of the API reply are dropped by name or
 * type, and the rest are reshaped into the site's event record, in order.
 */
module EngageEvents {
  import opened Util

  /** The fields of an Engage API item that the service reads; times are milliseconds. */
  datatype EngageEvent = EngageEvent(eventName: string, typeName: string, otherLocation: string, description: string,
                                     organizationName: string, eventUrl: string, startDateTime: int, endDateTime: int)

  /** The site's event record; start and end stay in milliseconds. */
  datatype Event = Event(name: string, location: string, description: string, host: string, detailsUrl: string,
                         start: int, end: int, status: string)

  /** The production shift of both times: 7 hours. */
  const ProductionShift: int := 7 * 60 * 60 * 1000

  /** `shouldSkipEvent`. */
  predicate ShouldSkip(e: EngageEvent) {
    Trim(e.eventName) in ["Sunday Practice", "General Meetings"] || e.typeName == "Organization Only"
  }

  /** `formatEvent`: the location defaults to "N/A", the status is always "approved". */
  function Format(e: EngageEvent, production: bool): (r: Event)
    ensures r.location == (if e.otherLocation == "" then "N/A" else e.otherLocation)
    ensures r.status == "approved"
    ensures r.name == e.eventName && r.description == e.description && r.host == e.organizationName && r.detailsUrl == e.eventUrl
    ensures r.start == e.startDateTime - (if production then 25200000 else 0)
    ensures r.end == e.endDateTime - (if production then 25200000 else 0)
    ensures r.end - r.start == e.endDateTime - e.startDateTime
  {
    var shift := if production then ProductionShift else 0;
    Event(e.eventName, if e.otherLocation == "" then "N/A" else e.otherLocation, e.description, e.organizationName,
      e.eventUrl, e.startDateTime - shift, e.endDateTime - shift, "approved")
  }

  /** `getEvents` on the fetched items: filter, then map. */
  function GetEvents(items: seq<EngageEvent>, production: bool): (r: seq<Event>)
    ensures |r| <= |items|
    ensures forall x :: x in r ==> exists e :: e in items && !ShouldSkip(e) && x == Format(e, production)
    ensures forall e :: e in items && !ShouldSkip(e) ==> Format(e, production) in r
  {
    if items == [] then []
    else
      var rest := GetEvents(items[1..], production);
      var head := if ShouldSkip(items[0]) then [] else [Format(items[0], production)];
      GetEventsCons(items, production, head, rest);
      head + rest
  }

  /** The membership facts of GetEvents for one more item in front. */
  lemma GetEventsCons(items: seq<EngageEvent>, production: bool, head: seq<Event>, rest: seq<Event>)
    requires items != [] && head == (if ShouldSkip(items[0]) then [] else [Format(items[0], production)])
    requires forall x :: x in rest ==> exists e :: e in items[1..] && !ShouldSkip(e) && x == Format(e, production)
    requires forall e :: e in items[1..] && !ShouldSkip(e) ==> Format(e, production) in rest
    ensures forall x :: x in head + rest ==> exists e :: e in items && !ShouldSkip(e) && x == Format(e, production)
    ensures forall e :: e in items && !ShouldSkip(e) ==> Format(e, production) in head + rest
  {
    forall x | x in head + rest
      ensures exists e :: e in items && !ShouldSkip(e) && x == Format(e, production)
    {
      if x in rest {
        var e :| e in items[1..] && !ShouldSkip(e) && x == Format(e, production);
        assert e in items;
      } else {
        assert items[0] in items && x == Format(items[0], production);
      }
    }
    forall e | e in items && !ShouldSkip(e) ensures Format(e, production) in head + rest {
      if e != items[0] {
        assert e in items[1..];
      }
    }
  }

  /** The kept items, in order. */
  function Kept(items: seq<EngageEvent>): (r: seq<EngageEvent>)
    ensures forall e :: e in r <==> e in items && !ShouldSkip(e)
  {
    if items == [] then [] else (if ShouldSkip(items[0]) then [] else [items[0]]) + Kept(items[1..])
  }

  function FormatAll(items: seq<EngageEvent>, production: bool): (r: seq<Event>)
    ensures |r| == |items|
    ensures forall i :: 0 <= i < |items| ==> r[i] == Format(items[i], production)
  {
    if items == [] then [] else [Format(items[0], production)] + FormatAll(items[1..], production)
  }

  /** The feed is exactly the kept items, each formatted, in input order. */
  lemma {:induction false} GetEventsIsFilterThenMap(items: seq<EngageEvent>, production: bool)
    ensures GetEvents(items, production) == FormatAll(Kept(items), production)
    decreases |items|
  {
    if items != [] {
      GetEventsIsFilterThenMap(items[1..], production);
      FormatAllAppend(if ShouldSkip(items[0]) then [] else [items[0]], Kept(items[1..]), production);
    }
  }

  lemma FormatAllAppend(a: seq<EngageEvent>, b: seq<EngageEvent>, production: bool)
    ensures FormatAll(a + b, production) == FormatAll(a, production) + FormatAll(b, production)
  {
  }

  /** A skipped item never reaches the feed: no event of the feed is named "Sunday Practice" or "General Meetings" after trimming. */
  lemma FeedHasNoSkippedNames(items: seq<EngageEvent>, production: bool)
    ensures forall r :: r in GetEvents(items, production) ==>
      Trim(r.name) != "Sunday Practice" && Trim(r.name) != "General Meetings" && r.status == "approved"
  {
    GetEventsIsFilterThenMap(items, production);
    var k := Kept(items);
    forall r | r in GetEvents(items, production)
      ensures Trim(r.name) != "Sunday Practice" && Trim(r.name) != "General Meetings" && r.status == "approved"
    {
      var i :| 0 <= i < |k| && FormatAll(k, production)[i] == r;
      assert k[i] in k && r.name == k[i].eventName;
      assert !ShouldSkip(k[i]);
    }
  }
}
