/**
 * The housing overview page: the buildings fetched for a signed-in user
 * are grouped by campus, in order of first appearance, each turned into a
 * card with an image path derived from the building's name.
 */
module HousingPage {
  import opened Util

  datatype BuildingDoc = BuildingDoc(id: int, name: string, campus: string, description: string, floors: int)
  datatype BuildingCard = BuildingCard(id: int, name: string, image: string, description: string, floors: int)
  datatype CampusGroup = CampusGroup(campus: string, buildings: seq<BuildingCard>)

  // =====================================================================
  // Labels and image paths
  // =====================================================================

  /** `campus.charAt(0).toUpperCase() + campus.slice(1) + ' Campus'`. */
  function CampusLabel(campus: string): (r: string)
    ensures |r| == |campus| + 7 && r[|campus|..] == " Campus"
    ensures campus != [] ==> r[0] == UpperChar(campus[0]) && r[1..|campus|] == campus[1..]
  {
    (if campus == [] then [] else [UpperChar(campus[0])] + campus[1..]) + " Campus"
  }

  /** The labelOf a building is grouped under. */
  function CampusOf(b: BuildingDoc): string { CampusLabel(b.campus) }

  /** Drops the dashes at the start of s. */
  function DropDashes(s: string): (r: string)
    ensures |r| <= |s| && (r != [] ==> r[0] != '-')
    ensures r == s[|s| - |r|..]
  {
    if s != [] && s[0] == '-' then DropDashes(s[1..]) else s
  }

  /** `s.replace(/-+/g, '-')`: each run of dashes becomes one dash. */
  function CollapseDashes(s: string): (r: string)
    ensures |r| <= |s|
    ensures s != [] ==> r != [] && r[0] == s[0]
    ensures forall i :: 0 <= i < |r| - 1 ==> !(r[i] == '-' && r[i + 1] == '-')
    ensures (forall i :: 0 <= i < |s| ==> !IsSpace(s[i])) ==> forall i :: 0 <= i < |r| ==> !IsSpace(r[i])
    decreases |s|
  {
    if s == [] then []
    else if s[0] == '-' then
      var rest := DropDashes(s);
      assert forall i :: 0 <= i < |rest| ==> rest[i] == s[|s| - |rest| + i];
      "-" + CollapseDashes(rest)
    else
      [s[0]] + CollapseDashes(s[1..])
  }

  /** The image path of a building card. */
  function Slug(name: string): string {
    CollapseDashes(ReplaceSpaceRuns(ToLower(name), "-"))
  }

  function ImagePath(name: string): string {
    "/buildings/" + Slug(name) + ".jpg"
  }

  /** The file name derived from a building's name holds no whitespace and no doubled dash. */
  lemma SlugIsClean(name: string)
    ensures var slug := Slug(name);
      && (forall i :: 0 <= i < |slug| ==> !IsSpace(slug[i]))
      && (forall i :: 0 <= i < |slug| - 1 ==> !(slug[i] == '-' && slug[i + 1] == '-'))
    ensures ImagePath(name) == "/buildings/" + Slug(name) + ".jpg"
  {
    ReplaceSpaceRunsNoSpace(ToLower(name), "-");
  }

  function Card(b: BuildingDoc): (c: BuildingCard)
    ensures c.id == b.id && c.name == b.name && c.description == b.description && c.floors == b.floors
    ensures c.image == ImagePath(b.name)
  {
    BuildingCard(b.id, b.name, ImagePath(b.name), b.description, b.floors)
  }

  /** The cards of the buildings s, made by `card` (the page uses Card). */
  function Cards(s: seq<BuildingDoc>, card: BuildingDoc -> BuildingCard): (r: seq<BuildingCard>)
    ensures |r| == |s| && forall i :: 0 <= i < |s| ==> r[i] == card(s[i])
  {
    if s == [] then [] else [card(s[0])] + Cards(s[1..], card)
  }

  /** The labels of the buildings s, given by `labelOf` (the page uses CampusOf). */
  function Labels(s: seq<BuildingDoc>, labelOf: BuildingDoc -> string): (r: seq<string>)
    ensures |r| == |s| && forall i :: 0 <= i < |s| ==> r[i] == labelOf(s[i])
  {
    if s == [] then [] else [labelOf(s[0])] + Labels(s[1..], labelOf)
  }

  function Campuses(groups: seq<CampusGroup>): (r: seq<string>)
    ensures |r| == |groups| && forall i :: 0 <= i < |groups| ==> r[i] == groups[i].campus
  {
    if groups == [] then [] else [groups[0].campus] + Campuses(groups[1..])
  }

  // =====================================================================
  // Grouping
  // =====================================================================

  /**
   * The groups built from `done`: one per campus, in order of first
   * appearance, each holding the cards of its campus's buildings in order.
   */
  ghost predicate Grouped(groups: seq<CampusGroup>, done: seq<BuildingDoc>, labelOf: BuildingDoc -> string, card: BuildingDoc -> BuildingCard) {
    && Campuses(groups) == Distinct(Labels(done, labelOf))
    && forall i :: 0 <= i < |groups| ==> groups[i].buildings == Cards(Having(done, labelOf, groups[i].campus), card)
  }

  /** `acc.find(c => c.campus === campusName)`. */
  function FindCampus(groups: seq<CampusGroup>, campus: string): (r: Option<nat>)
    ensures r.None? <==> campus !in Campuses(groups)
    ensures r.Some? ==> r.value < |groups| && groups[r.value].campus == campus
  {
    if groups == [] then None
    else if groups[0].campus == campus then Some(0)
    else
      var k := FindCampus(groups[1..], campus);
      assert Campuses(groups) == [groups[0].campus] + Campuses(groups[1..]);
      if k.None? then None else Some(k.value + 1)
  }

  /** One step of the reduce: push the card onto its campus, or open a new campus. */
  function Place(groups: seq<CampusGroup>, b: BuildingDoc, labelOf: BuildingDoc -> string, card: BuildingDoc -> BuildingCard): seq<CampusGroup> {
    var campus := labelOf(b);
    match FindCampus(groups, campus)
    case Some(k) => groups[k := groups[k].(buildings := groups[k].buildings + [card(b)])]
    case None => groups + [CampusGroup(campus, [card(b)])]
  }

  lemma LabelsSnoc(s: seq<BuildingDoc>, b: BuildingDoc, labelOf: BuildingDoc -> string)
    ensures Labels(s + [b], labelOf) == Labels(s, labelOf) + [labelOf(b)]
  {
  }

  lemma CampusesSnoc(groups: seq<CampusGroup>, g: CampusGroup)
    ensures Campuses(groups + [g]) == Campuses(groups) + [g.campus]
  {
  }

  lemma CampusesUpdate(groups: seq<CampusGroup>, k: nat, g: CampusGroup)
    requires k < |groups| && g.campus == groups[k].campus
    ensures Campuses(groups[k := g]) == Campuses(groups)
  {
    assert forall i :: 0 <= i < |groups| ==> Campuses(groups[k := g])[i] == Campuses(groups)[i];
  }

  lemma CardsSnoc(s: seq<BuildingDoc>, b: BuildingDoc, card: BuildingDoc -> BuildingCard)
    ensures Cards(s + [b], card) == Cards(s, card) + [card(b)]
  {
  }

  lemma PlaceExisting(groups: seq<CampusGroup>, done: seq<BuildingDoc>, b: BuildingDoc, k: nat, labelOf: BuildingDoc -> string, card: BuildingDoc -> BuildingCard)
    requires Grouped(groups, done, labelOf, card)
    requires FindCampus(groups, labelOf(b)) == Some(k)
    ensures Grouped(Place(groups, b, labelOf, card), done + [b], labelOf, card)
  {
    var r := Place(groups, b, labelOf, card);
    var campus := labelOf(b);
    LabelsSnoc(done, b, labelOf);
    DistinctSnoc(Labels(done, labelOf), campus);
    assert campus in Labels(done, labelOf) by {
      assert Campuses(groups)[k] == campus;
    }
    CampusesUpdate(groups, k, groups[k].(buildings := groups[k].buildings + [card(b)]));
    CardsSnoc(Having(done, labelOf, campus), b, card);
    forall i | 0 <= i < |r| ensures r[i].buildings == Cards(Having(done + [b], labelOf, r[i].campus), card) {
      HavingSnocAt(done, labelOf, b, r[i].campus);
      if i != k {
        assert Campuses(groups)[i] != Campuses(groups)[k];
      }
    }
  }

  lemma PlaceNew(groups: seq<CampusGroup>, done: seq<BuildingDoc>, b: BuildingDoc, labelOf: BuildingDoc -> string, card: BuildingDoc -> BuildingCard)
    requires Grouped(groups, done, labelOf, card)
    requires FindCampus(groups, labelOf(b)).None?
    ensures Grouped(Place(groups, b, labelOf, card), done + [b], labelOf, card)
  {
    var r := Place(groups, b, labelOf, card);
    var campus := labelOf(b);
    LabelsSnoc(done, b, labelOf);
    DistinctSnoc(Labels(done, labelOf), campus);
    assert campus !in Labels(done, labelOf);
    CampusesSnoc(groups, CampusGroup(campus, [card(b)]));
    forall i | 0 <= i < |groups| ensures r[i].buildings == Cards(Having(done + [b], labelOf, r[i].campus), card) {
      HavingSnocAt(done, labelOf, b, r[i].campus);
      assert Campuses(groups)[i] != campus;
    }
    HavingSnocAt(done, labelOf, b, campus);
    forall c | c in done ensures labelOf(c) != campus {
      var j :| 0 <= j < |done| && done[j] == c;
      assert Labels(done, labelOf)[j] == labelOf(c);
    }
    assert Having(done, labelOf, campus) == [];
    CardsSnoc([], b, card);
  }

  lemma PlaceStep(groups: seq<CampusGroup>, done: seq<BuildingDoc>, b: BuildingDoc, labelOf: BuildingDoc -> string, card: BuildingDoc -> BuildingCard)
    requires Grouped(groups, done, labelOf, card)
    ensures Grouped(Place(groups, b, labelOf, card), done + [b], labelOf, card)
  {
    match FindCampus(groups, labelOf(b)) {
      case Some(k) => PlaceExisting(groups, done, b, k, labelOf, card);
      case None => PlaceNew(groups, done, b, labelOf, card);
    }
  }

  /**
   * The `reduce` that gathers the cards: the campuses come in order of
   * first appearance, each holding exactly its buildings' cards in input order.
   */
  method OrganizeByCampus(buildings: seq<BuildingDoc>) returns (groups: seq<CampusGroup>)
    ensures Campuses(groups) == Distinct(Labels(buildings, CampusOf))
    ensures forall i :: 0 <= i < |groups| ==> groups[i].buildings == Cards(Having(buildings, CampusOf, groups[i].campus), Card)
  {
    groups := [];
    var i := 0;
    while i < |buildings|
      invariant 0 <= i <= |buildings|
      invariant Grouped(groups, buildings[..i], CampusOf, Card)
    {
      PlaceStep(groups, buildings[..i], buildings[i], CampusOf, Card);
      assert buildings[..i + 1] == buildings[..i] + [buildings[i]];
      groups := Place(groups, buildings[i], CampusOf, Card);
      i := i + 1;
    }
    assert buildings[..i] == buildings;
  }

  /** Every building is placed exactly once: in the one group of its campus, and in no other group. */
  lemma PlacedOnce(buildings: seq<BuildingDoc>, groups: seq<CampusGroup>, b: BuildingDoc, labelOf: BuildingDoc -> string, card: BuildingDoc -> BuildingCard)
    requires Grouped(groups, buildings, labelOf, card)
    requires b in buildings
    ensures exists i :: 0 <= i < |groups| && groups[i].campus == labelOf(b) && card(b) in groups[i].buildings
    ensures forall i, j :: 0 <= i < j < |groups| ==> groups[i].campus != groups[j].campus
  {
    var k :| 0 <= k < |buildings| && buildings[k] == b;
    assert Labels(buildings, labelOf)[k] == labelOf(b);
    assert labelOf(b) in Campuses(groups);
    var i :| 0 <= i < |groups| && Campuses(groups)[i] == labelOf(b);
    var h := Having(buildings, labelOf, labelOf(b));
    assert b in h;
    var m :| 0 <= m < |h| && h[m] == b;
    assert groups[i].buildings[m] == card(b);
    forall i, j | 0 <= i < j < |groups| ensures groups[i].campus != groups[j].campus {
      assert Campuses(groups)[i] != Campuses(groups)[j];
    }
  }

  // =====================================================================
  // Page state
  // =====================================================================

  class Page {
    var housingData: seq<CampusGroup>
    var loading: bool
    var error: Option<string>

    constructor ()
      ensures housingData == [] && loading && error == None
    {
      housingData := [];
      loading := true;
      error := None;
    }

    /** The fetch effect: without a user nothing is fetched and loading stops; `reply` is the API's answer, None when it failed. */
    method FetchHousingData(loggedIn: bool, reply: Option<seq<BuildingDoc>>) returns (fetched: bool)
      modifies this
      ensures fetched == loggedIn
      ensures !loading
      ensures !loggedIn ==> housingData == old(housingData) && error == old(error)
      ensures loggedIn && reply.Some? ==> Grouped(housingData, reply.value, CampusOf, Card) && error == old(error)
      ensures loggedIn && reply.None? ==> housingData == old(housingData) && error == Some("Could not load housing information. Please try again later.")
    {
      if !loggedIn {
        loading := false;
        return false;
      }
      if reply.Some? {
        housingData := OrganizeByCampus(reply.value);
      } else {
        error := Some("Could not load housing information. Please try again later.");
      }
      loading := false;
      return true;
    }
  }
}
