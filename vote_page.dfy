/**
 * The stand-alone voting page: candidates are grouped by position and
 * sorted by name, each position gets a drag-to-reorder section, and the page
 * keeps one ranking (a list of candidate ids) per position.
 */
module VotePage {
  import opened Util
  import BallotSection

  datatype Candidate = Candidate(id: string, electionId: string, name: string, position: string, description: string)

  function Ids(s: seq<Candidate>): (r: seq<string>)
    ensures |r| == |s|
    ensures forall i :: 0 <= i < |s| ==> r[i] == s[i].id
  {
    if s == [] then [] else [s[0].id] + Ids(s[1..])
  }

  // =====================================================================
  // Grouping and sorting
  // =====================================================================

  function Position(c: Candidate): string { c.position }

  /** `a.name.localeCompare(b.name)`, with code-point order standing in for the locale's collation. */
  function NameLe(a: Candidate, b: Candidate): bool {
    StringLe(a.name, b.name)
  }

  lemma NameLeTotalPreorder()
    ensures TotalPreorder(NameLe)
  {
    forall a: Candidate, b: Candidate ensures NameLe(a, b) || NameLe(b, a) {
      StringLeTotal(a.name, b.name);
    }
    forall a: Candidate, b: Candidate, c: Candidate | NameLe(a, b) && NameLe(b, c) ensures NameLe(a, c) {
      StringLeTransitive(a.name, b.name, c.name);
    }
  }

  /** The ballots the page shows: each group sorted by name. */
  function Ballots(cs: seq<Candidate>): map<string, seq<Candidate>> {
    NameLeTotalPreorder();
    var g := GroupBy(cs, Position);
    map p | p in g :: SortBy(g[p], NameLe)
  }

  /** Each position that occurs has one ballot, holding exactly its candidates, sorted by name. */
  lemma BallotsMeaning(cs: seq<Candidate>, p: string)
    ensures p in Ballots(cs) <==> exists c :: c in cs && c.position == p
    ensures p in Ballots(cs) ==>
      && multiset(Ballots(cs)[p]) == multiset(Having(cs, Position, p))
      && SortedBy(Ballots(cs)[p], NameLe)
      && forall c :: c in Ballots(cs)[p] ==> c.position == p
  {
    GroupByMeaning(cs, Position);
    if p in Ballots(cs) {
      BallotHolds(cs, p);
    }
  }

  lemma BallotHolds(cs: seq<Candidate>, p: string)
    requires p in GroupBy(cs, Position) && GroupBy(cs, Position)[p] == Having(cs, Position, p)
    ensures multiset(Ballots(cs)[p]) == multiset(Having(cs, Position, p))
    ensures SortedBy(Ballots(cs)[p], NameLe)
    ensures forall c :: c in Ballots(cs)[p] ==> c.position == p
  {
    NameLeTotalPreorder();
    var h := Having(cs, Position, p);
    var b := Ballots(cs)[p];
    assert b == SortBy(h, NameLe);
    forall c | c in b ensures c.position == p {
      SameMembers(b, h, c);
      assert Position(c) == p;
    }
  }

  lemma SameMembers(a: seq<Candidate>, b: seq<Candidate>, c: Candidate)
    requires multiset(a) == multiset(b) && c in a
    ensures c in b
  {
    assert c in multiset(a);
  }

  /** The initial rankings: each position's ids, in ballot order. */
  function InitialRankings(ballots: map<string, seq<Candidate>>): (r: map<string, seq<string>>)
    ensures r.Keys == ballots.Keys
    ensures forall p :: p in r ==> |r[p]| == |ballots[p]| && forall i :: 0 <= i < |r[p]| ==> r[p][i] == ballots[p][i].id
  {
    map p | p in ballots :: Ids(ballots[p])
  }

  /** handleRankChange: the ranking of one position is replaced and every other is kept. */
  function RankChange(rankings: map<string, seq<string>>, position: string, newIds: seq<string>): (r: map<string, seq<string>>)
    ensures r.Keys == rankings.Keys + {position}
    ensures r[position] == newIds
    ensures forall p :: p in rankings && p != position ==> r[p] == rankings[p]
  {
    rankings[position := newIds]
  }

  // =====================================================================
  // Drag reorder
  // =====================================================================

  /** `list.findIndex(c => c._id === id)`: the first match, or -1. */
  function FindIndex(s: seq<Candidate>, id: string): (r: int)
    ensures -1 <= r < |s|
    ensures r == -1 <==> id !in Ids(s)
    ensures r >= 0 ==> s[r].id == id && forall i :: 0 <= i < r ==> s[i].id != id
  {
    if s == [] then -1
    else if s[0].id == id then 0
    else
      var k := FindIndex(s[1..], id);
      assert Ids(s[1..]) == Ids(s)[1..];
      if k == -1 then -1 else k + 1
  }

  /** handleDragOver acts: there is a dragged id and it is not the target. */
  predicate Moves(draggedId: Option<string>, targetId: string) {
    draggedId.Some? && draggedId.value != "" && draggedId.value != targetId
  }

  /**
   * handleDragOver on a copy of the list: splice the dragged candidate out
   * (index -1 cuts the last one, as `splice` does) and splice it back in at
   * the target's index, found before the cut.
   */
  function DragOver(list: seq<Candidate>, draggedId: Option<string>, targetId: string): seq<Candidate> {
    if !Moves(draggedId, targetId) || list == [] then list
    else
      var d := BallotSection.SpliceStart(FindIndex(list, draggedId.value), |list|);
      var t := FindIndex(list, targetId);
      if d < |list| then
        var rest := RemoveAt(list, d);
        InsertAt(rest, BallotSection.SpliceStart(t, |rest|), list[d])
      else list
  }

  /**
   * Dragging always gives a permutation of the list and is a no-op without
   * a dragged id or over itself; when both cards are in the list the
   * dragged one lands at the target's index and the others keep their order.
   */
  lemma DragOverPermutes(list: seq<Candidate>, draggedId: Option<string>, targetId: string)
    ensures multiset(DragOver(list, draggedId, targetId)) == multiset(list)
    ensures !Moves(draggedId, targetId) ==> DragOver(list, draggedId, targetId) == list
    ensures Moves(draggedId, targetId) && draggedId.value in Ids(list) && targetId in Ids(list) ==>
      var r := DragOver(list, draggedId, targetId);
      var d := FindIndex(list, draggedId.value);
      var t := FindIndex(list, targetId);
      r[t] == list[d] && RemoveAt(r, t) == RemoveAt(list, d)
  {
    if Moves(draggedId, targetId) && list != [] {
      var d := BallotSection.SpliceStart(FindIndex(list, draggedId.value), |list|);
      var t := FindIndex(list, targetId);
      if d < |list| {
        MoveFacts(list, d, BallotSection.SpliceStart(t, |RemoveAt(list, d)|));
      }
    }
  }

  // =====================================================================
  // Page and section state
  // =====================================================================

  /** The page's state: the ballots and the rankings, one per position. */
  class Page {
    var ballots: map<string, seq<Candidate>>
    var rankings: map<string, seq<string>>

    constructor ()
      ensures ballots == map[] && rankings == map[]
    {
      ballots := map[];
      rankings := map[];
    }

    /** The mount effect: group and sort the candidates, then seed the rankings. */
    method Load(cs: seq<Candidate>)
      modifies this
      ensures ballots == Ballots(cs)
      ensures rankings == InitialRankings(ballots)
    {
      ballots := Ballots(cs);
      rankings := InitialRankings(ballots);
    }

    method HandleRankChange(position: string, newIds: seq<string>)
      modifies this
      ensures rankings == RankChange(old(rankings), position, newIds)
      ensures ballots == old(ballots)
    {
      rankings := rankings[position := newIds];
    }
  }

  /** One position's section: its own copy of the list and the card being dragged. */
  class Section {
    const position: string
    var list: seq<Candidate>
    var draggedId: Option<string>

    constructor (position: string, candidates: seq<Candidate>)
      ensures this.position == position && list == candidates && draggedId == None
    {
      this.position := position;
      list := candidates;
      draggedId := None;
    }

    method HandleDragStart(id: string)
      modifies this
      ensures draggedId == Some(id) && list == old(list)
    {
      draggedId := Some(id);
    }

    method HandleDragEnd()
      modifies this
      ensures draggedId == None && list == old(list)
    {
      draggedId := None;
    }

    /** Reorders the list and reports the new id order for this position to the page. */
    method HandleDragOver(targetId: string, page: Page)
      modifies this, page
      ensures list == DragOver(old(list), old(draggedId), targetId)
      ensures multiset(list) == multiset(old(list))
      ensures draggedId == old(draggedId)
      ensures page.ballots == old(page.ballots)
      ensures Moves(old(draggedId), targetId) ==> page.rankings == RankChange(old(page.rankings), position, Ids(list))
      ensures !Moves(old(draggedId), targetId) ==> list == old(list) && page.rankings == old(page.rankings)
    {
      DragOverPermutes(list, draggedId, targetId);
      if draggedId.None? || draggedId.value == "" || draggedId.value == targetId {
        return;
      }
      list := DragOver(list, draggedId, targetId);
      page.HandleRankChange(position, Ids(list));
    }
  }
}
