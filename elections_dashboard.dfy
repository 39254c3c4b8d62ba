/**
 * The administrators' elections dashboard: position labels, title casing
 * of custom positions, the election status badge, the checks before an
 * election or a candidate is saved, the candidate list kept in the page
 * before the election exists, and the ballot preview's submit gate.
 */
module ElectionsDashboard {
  import opened Util
  import BallotSection

  // =====================================================================
  // Labels and title case
  // =====================================================================

  /** The preset senate positions. */
  const Presets: seq<string> := [
    "president", "VP_finance", "VP_student_affairs", "VP_academic_affairs", "commissioner_athletics",
    "commissioner_campus_events", "commissioner_equity_inclusion", "commissioner_facilities_environment",
    "commissioner_welfare", "senior_class_president", "junior_class_president", "sophomore_class_president",
    "first_year_class_president", "north_campus_representative", "south_campus_representative",
    "trustee_representative_finance", "trustee_representative_student_affairs",
    "trustee_representative_educational_quality", "commencement_speaker", "class_name"]

  /** The dropdown value that asks for a custom position. */
  const Other := "__other__"

  /** `word.charAt(0).toUpperCase() + word.slice(1)`. */
  function CapFirst(w: string): (r: string)
    ensures |r| == |w|
    ensures w != [] ==> r[0] == UpperChar(w[0]) && r[1..] == w[1..]
  {
    if w == [] then [] else [UpperChar(w[0])] + w[1..]
  }

  function CapWords(ws: seq<string>): (r: seq<string>)
    ensures |r| == |ws|
    ensures forall i :: 0 <= i < |ws| ==> r[i] == CapFirst(ws[i])
  {
    if ws == [] then [] else [CapFirst(ws[0])] + CapWords(ws[1..])
  }

  /** `formatPositionLabel`: split on "_", capitalise each word, join with spaces. */
  function FormatPositionLabel(value: string): string {
    Join(CapWords(Split(value, '_')), " ")
  }

  lemma UpperNotSpace(c: char)
    requires c != ' '
    ensures UpperChar(c) != ' ' && LowerChar(c) != ' '
  {
  }

  /**
   * For a value without spaces, the label's space-separated words are the
   * value's underscore-separated words, each with its first letter upper-cased.
   */
  lemma LabelWords(value: string)
    requires ' ' !in value
    ensures Split(FormatPositionLabel(value), ' ') == CapWords(Split(value, '_'))
  {
    var ws := Split(value, '_');
    var cs := CapWords(ws);
    forall k | 0 <= k < |cs| ensures ' ' !in cs[k] {
      SplitPiecesIn(value, '_', k);
      forall j | 0 <= j < |cs[k]| ensures cs[k][j] != ' ' {
        if j == 0 {
          UpperNotSpace(ws[k][0]);
        } else {
          assert cs[k][j] == ws[k][1..][j - 1];
        }
      }
    }
    SplitJoin(cs, ' ');
  }

  /** Pieces of a split hold only characters of the split string. */
  lemma {:induction false} SplitPiecesIn(s: string, sep: char, k: nat)
    requires k < |Split(s, sep)|
    ensures forall c :: c in Split(s, sep)[k] ==> c in s
    decreases |s|
  {
    match IndexOf(s, sep)
      case None =>
      case Some(i) =>
        if k > 0 {
          SplitPiecesIn(s[i + 1..], sep, k - 1);
        }
  }

  /** `word.charAt(0).toUpperCase() + word.slice(1).toLowerCase()`. */
  function TitleWord(w: string): (r: string)
    ensures |r| == |w|
  {
    if w == [] then [] else [UpperChar(w[0])] + ToLower(w[1..])
  }

  function TitleWords(ws: seq<string>): (r: seq<string>)
    ensures |r| == |ws|
    ensures forall i :: 0 <= i < |ws| ==> r[i] == TitleWord(ws[i])
  {
    if ws == [] then [] else [TitleWord(ws[0])] + TitleWords(ws[1..])
  }

  /** `toTitleCase`: split on " ", title-case each word, join with spaces. */
  function ToTitleCase(s: string): string {
    Join(TitleWords(Split(s, ' ')), " ")
  }

  lemma TitleWordIdempotent(w: string)
    ensures TitleWord(TitleWord(w)) == TitleWord(w)
  {
    if w != [] {
      var t := TitleWord(w);
      assert t[1..] == ToLower(w[1..]);
      assert ToLower(t[1..]) == t[1..];
    }
  }

  lemma TitleWordNoSpace(w: string)
    requires ' ' !in w
    ensures ' ' !in TitleWord(w)
  {
    var t := TitleWord(w);
    forall j | 0 <= j < |t| ensures t[j] != ' ' {
      UpperNotSpace(w[j]);
      if j > 0 {
        assert t[j] == ToLower(w[1..])[j - 1];
      }
    }
  }

  /** Title casing twice is title casing once. */
  lemma ToTitleCaseIdempotent(s: string)
    ensures ToTitleCase(ToTitleCase(s)) == ToTitleCase(s)
  {
    var ws := Split(s, ' ');
    var ts := TitleWords(ws);
    forall k | 0 <= k < |ts| ensures ' ' !in ts[k] {
      TitleWordNoSpace(ws[k]);
    }
    SplitJoin(ts, ' ');
    forall k | 0 <= k < |ts| ensures TitleWord(ts[k]) == ts[k] {
      TitleWordIdempotent(ws[k]);
    }
    assert TitleWords(ts) == ts;
  }

  // =====================================================================
  // Election status and save checks
  // =====================================================================

  /** A datetime-local input: its text, and the time it parses to (None for an invalid date). */
  datatype DateInput = DateInput(text: string, time: Option<int>)

  /** `<` on two dates; a comparison with an invalid date is false. */
  predicate Before(a: Option<int>, b: Option<int>) {
    a.Some? && b.Some? && a.value < b.value
  }

  datatype Status = Draft | Configured | Active | Ended

  /** `getElectionStatus`. */
  function ElectionStatus(start: DateInput, end: DateInput, candidateCount: nat, now: int): (r: Status)
    ensures start.text == "" || end.text == "" ==> r == Draft
    ensures r == Configured <==> start.text != "" && end.text != "" && Before(Some(now), start.time) && candidateCount > 0
    ensures r == Active <==> start.text != "" && end.text != "" && start.time.Some? && end.time.Some? && start.time.value <= now <= end.time.value
  {
    if start.text == "" || end.text == "" then Draft
    else if Before(Some(now), start.time) then (if candidateCount > 0 then Configured else Draft)
    else if !Before(Some(now), start.time) && start.time.Some? && !Before(end.time, Some(now)) && end.time.Some? then Active
    else Ended
  }

  /** A valid date range moves from before the start, through the voting period, to the end. */
  lemma StatusTimeline(start: DateInput, end: DateInput, candidateCount: nat, now: int)
    requires start.text != "" && end.text != "" && start.time.Some? && end.time.Some?
    requires start.time.value < end.time.value
    ensures now < start.time.value ==> ElectionStatus(start, end, candidateCount, now) in {Draft, Configured}
    ensures end.time.value < now ==> ElectionStatus(start, end, candidateCount, now) == Ended
  {
  }

  /** What saving an election does: an alert, or a request. */
  datatype SaveElection = Alert(message: string) | Send(httpMethod: string, url: string)

  const FillRequired := "Please fill in all required fields."
  const StartBeforeEnd := "Start date must be before end date."
  /** The message of the RangeError `toISOString` throws on an invalid date, which the catch alerts. */
  const InvalidTime := "Invalid time value"

  /**
   * `handleSaveElection` up to the request: the checks in order, then the
   * body's `toISOString`, which throws on an unparseable date before
   * anything is sent, then PUT for a selected election or POST for a new one.
   */
  function SaveElectionRequest(name: string, start: DateInput, end: DateInput, selectedElectionId: string, backend: string): (r: SaveElection)
    ensures r == Alert(FillRequired) <==> name == "" || start.text == "" || end.text == ""
    ensures r == Alert(StartBeforeEnd) <==>
      name != "" && start.text != "" && end.text != "" && start.time.Some? && end.time.Some? && start.time.value >= end.time.value
    ensures r == Alert(InvalidTime) <==>
      name != "" && start.text != "" && end.text != "" && (start.time.None? || end.time.None?)
    ensures r.Send? ==> start.time.Some? && end.time.Some? && start.time.value < end.time.value
    ensures r.Send? ==> r.httpMethod == (if selectedElectionId == "" then "POST" else "PUT")
    ensures r.Send? ==> r.url == backend + "/api/admin/elections" + (if selectedElectionId == "" then "" else "/" + selectedElectionId)
  {
    if name == "" || start.text == "" || end.text == "" then Alert(FillRequired)
    else if start.time.Some? && end.time.Some? && start.time.value >= end.time.value then Alert(StartBeforeEnd)
    else if start.time.None? || end.time.None? then Alert(InvalidTime)
    else if selectedElectionId != "" then Send("PUT", backend + "/api/admin/elections/" + selectedElectionId)
    else Send("POST", backend + "/api/admin/elections")
  }

  // =====================================================================
  // Candidates kept locally before the election is saved
  // =====================================================================

  datatype LocalCandidate = LocalCandidate(id: string, electionId: string, name: string, position: string, writeIn: bool)

  /** A candidate POST made after a new election is created. */
  datatype CandidatePost = CandidatePost(url: string, name: string, position: string)

  /** After a new election is saved: one POST per local candidate, in list order, to the new election's candidates. */
  function LocalPosts(cands: seq<LocalCandidate>, backend: string, savedId: string): (r: seq<CandidatePost>)
    ensures |r| <= |cands|
    ensures forall q :: q in r ==> q.url == backend + "/api/admin/elections/" + savedId + "/candidates"
    ensures forall c :: c in cands && StartsWith(c.id, "local-") ==> CandidatePost(backend + "/api/admin/elections/" + savedId + "/candidates", c.name, c.position) in r
    ensures forall q :: q in r ==> exists c :: c in cands && StartsWith(c.id, "local-") && q.name == c.name && q.position == c.position
  {
    if cands == [] then []
    else
      var rest := LocalPosts(cands[1..], backend, savedId);
      var url := backend + "/api/admin/elections/" + savedId + "/candidates";
      assert forall c :: c in cands[1..] ==> c in cands;
      (if StartsWith(cands[0].id, "local-") then [CandidatePost(url, cands[0].name, cands[0].position)] else []) + rest
  }

  /** The position the candidate form resolves to. */
  function ResolvedPosition(candidatePosition: string, customPosition: string): string {
    if candidatePosition == Other then ToTitleCase(Trim(customPosition)) else candidatePosition
  }

  /** The custom position list: the resolved position is added unless already there. */
  function AddCustom(prev: seq<string>, position: string): (r: seq<string>)
    ensures position in r && forall p :: p in prev ==> p in r
    ensures NoDup(prev) ==> NoDup(r)
    ensures |r| <= |prev| + 1
  {
    if position in prev then prev else prev + [position]
  }

  /** Editing a local candidate: only those with the edited id change, and only their name and position. */
  function EditLocal(cands: seq<LocalCandidate>, id: string, name: string, position: string): (r: seq<LocalCandidate>)
    ensures |r| == |cands|
    ensures forall i :: 0 <= i < |cands| ==>
      r[i] == if cands[i].id == id then cands[i].(name := name, position := position) else cands[i]
  {
    if cands == [] then []
    else [if cands[0].id == id then cands[0].(name := name, position := position) else cands[0]] + EditLocal(cands[1..], id, name, position)
  }

  /** The id a candidate added at time `now` gets. */
  function LocalId(now: int): string {
    "local-" + IntToString(now)
  }

  function AddLocal(cands: seq<LocalCandidate>, name: string, position: string, now: int): seq<LocalCandidate> {
    cands + [LocalCandidate(LocalId(now), "", name, position, false)]
  }

  /** Deleting a local candidate filters its id out. */
  function DeleteLocal(cands: seq<LocalCandidate>, id: string): (r: seq<LocalCandidate>)
    ensures forall c :: c in r <==> c in cands && c.id != id
    ensures |r| <= |cands|
  {
    if cands == [] then []
    else (if cands[0].id == id then [] else [cands[0]]) + DeleteLocal(cands[1..], id)
  }

  lemma {:induction false} DeleteLocalAbsent(cands: seq<LocalCandidate>, id: string)
    requires forall c :: c in cands ==> c.id != id
    ensures DeleteLocal(cands, id) == cands
    decreases |cands|
  {
    if cands != [] {
      DeleteLocalAbsent(cands[1..], id);
    }
  }

  lemma {:induction false} DeleteLocalAppend(a: seq<LocalCandidate>, b: seq<LocalCandidate>, id: string)
    ensures DeleteLocal(a + b, id) == DeleteLocal(a, id) + DeleteLocal(b, id)
    decreases |a|
  {
    if a != [] {
      DeleteLocalAppend(a[1..], b, id);
      var head := if a[0].id == id then [] else [a[0]];
      ConsAppend(a, b);
      assert DeleteLocal(a + b, id) == head + DeleteLocal(a[1..] + b, id);
      assert DeleteLocal(a, id) == head + DeleteLocal(a[1..], id);
    } else {
      assert a + b == b;
    }
  }

  /** Deleting a freshly added local candidate undoes the addition. */
  lemma DeleteUndoesAdd(cands: seq<LocalCandidate>, name: string, position: string, now: int)
    requires forall c :: c in cands ==> c.id != LocalId(now)
    ensures DeleteLocal(AddLocal(cands, name, position, now), LocalId(now)) == cands
  {
    DeleteLocalAppend(cands, [LocalCandidate(LocalId(now), "", name, position, false)], LocalId(now));
    DeleteLocalAbsent(cands, LocalId(now));
  }

  /** The local ids: "local-" followed by the time. */
  lemma LocalIdPrefix(now: int)
    ensures StartsWith(LocalId(now), "local-")
  {
    assert LocalId(now)[..6] == "local-";
  }

  /** The dropdown selection when editing a candidate: its position if listed, otherwise "__other__" with the position as text. */
  function EditSelection(position: string, customPositions: seq<string>): (r: (string, string))
    ensures position in Presets || position in customPositions ==> r == (position, "")
    ensures !(position in Presets || position in customPositions) ==> r == (Other, position)
  {
    if position in Presets || position in customPositions then (position, "") else (Other, position)
  }

  /**
   * Opening a candidate for editing and saving it again keeps a listed
   * position, and keeps an unlisted one that is already trimmed and title-cased.
   */
  lemma EditSelectionResolves(position: string, customPositions: seq<string>)
    requires position != Other
    ensures var sel := EditSelection(position, customPositions);
      (position in Presets || position in customPositions) ==> ResolvedPosition(sel.0, sel.1) == position
    ensures var sel := EditSelection(position, customPositions);
      !(position in Presets || position in customPositions) ==> ResolvedPosition(sel.0, sel.1) == ToTitleCase(Trim(position))
  {
  }

  lemma ResolvedTitleCased(position: string, customPositions: seq<string>)
    requires position != Other && !(position in Presets || position in customPositions)
    requires Trim(position) == position && ToTitleCase(position) == position
    ensures var sel := EditSelection(position, customPositions); ResolvedPosition(sel.0, sel.1) == position
  {
  }

  /** What saving the candidate form does. */
  datatype CandidateSave = MissingFields | SavedLocally | SendCandidate(httpMethod: string, url: string, name: string, position: string)

  const NameAndPosition := "Please fill in candidate name and position."

  /** What deleting a candidate does. */
  datatype CandidateDelete = Kept | RemovedLocally | DeleteOnServer(url: string)

  // =====================================================================
  // Preview
  // =====================================================================

  function PositionOf(c: LocalCandidate): string { c.position }

  function NotWriteIns(cands: seq<LocalCandidate>): (r: seq<LocalCandidate>)
    ensures forall c :: c in r <==> c in cands && !c.writeIn
  {
    if cands == [] then [] else (if cands[0].writeIn then [] else [cands[0]]) + NotWriteIns(cands[1..])
  }

  /** The preview's ballots: the candidates that are not write-ins, grouped by position. */
  function PreviewBallots(cands: seq<LocalCandidate>): map<string, seq<LocalCandidate>> {
    GroupBy(NotWriteIns(cands), PositionOf)
  }

  /** A preview ballot holds no write-in, and only candidates of its position. */
  lemma PreviewHasNoWriteIns(cands: seq<LocalCandidate>, p: string)
    ensures p in PreviewBallots(cands) <==> exists c :: c in cands && !c.writeIn && c.position == p
    ensures p in PreviewBallots(cands) ==> forall c :: c in PreviewBallots(cands)[p] ==> !c.writeIn && c.position == p && c in cands
  {
    GroupByMeaning(NotWriteIns(cands), PositionOf);
    if p in PreviewBallots(cands) {
      assert PreviewBallots(cands)[p] == Having(NotWriteIns(cands), PositionOf, p);
    }
    if exists c :: c in cands && !c.writeIn && c.position == p {
      var c :| c in cands && !c.writeIn && c.position == p;
      assert c in NotWriteIns(cands) && PositionOf(c) == p;
    }
  }

  /** `handleToggle`: flips the truthiness of one position's switch. */
  function Toggle(active: map<string, bool>, pos: string): (r: map<string, bool>)
    ensures pos in r && r[pos] == !(pos in active && active[pos])
    ensures forall k :: k in active && k != pos ==> k in r && r[k] == active[k]
    ensures r.Keys == active.Keys + {pos}
  {
    active[pos := !(pos in active && active[pos])]
  }

  function ActiveKeys(active: map<string, bool>): set<string> {
    set k | k in active && active[k]
  }

  /** `canSubmit`: some section active, and every active one complete. */
  predicate CanSubmit(active: map<string, bool>, rankings: map<string, BallotSection.RankingState>) {
    |ActiveKeys(active)| > 0 && forall k :: k in ActiveKeys(active) ==> k in rankings && rankings[k].isComplete
  }

  /** Switching on a section whose ranking is not complete always disables submit; switching it off again restores it. */
  lemma ToggleIncomplete(active: map<string, bool>, rankings: map<string, BallotSection.RankingState>, pos: string)
    requires !(pos in active && active[pos])
    requires !(pos in rankings && rankings[pos].isComplete)
    ensures !CanSubmit(Toggle(active, pos), rankings)
    ensures ActiveKeys(Toggle(Toggle(active, pos), pos)) == ActiveKeys(active)
  {
    assert pos in ActiveKeys(Toggle(active, pos));
  }

  /** Submit is enabled exactly when no active section is incomplete and one is active. */
  lemma CanSubmitMeaning(active: map<string, bool>, rankings: map<string, BallotSection.RankingState>)
    ensures CanSubmit(active, rankings) <==>
      (exists k :: k in active && active[k]) &&
      forall k :: k in active && active[k] ==> k in rankings && rankings[k].isComplete
  {
    if exists k :: k in active && active[k] {
      var k :| k in active && active[k];
      assert k in ActiveKeys(active);
    }
  }

  // =====================================================================
  // The dashboard's form state
  // =====================================================================

  class Dashboard {
    var selectedElectionId: string
    var name: string
    var description: string
    var startDate: DateInput
    var endDate: DateInput
    var candidates: seq<LocalCandidate>
    var candidateName: string
    var candidatePosition: string
    var customPosition: string
    var customPositions: seq<string>
    var editingCandidateId: Option<string>
    var showCandidateForm: bool

    ghost predicate Valid()
      reads this
    {
      NoDup(customPositions)
    }

    constructor ()
      ensures Valid() && selectedElectionId == "" && candidates == [] && customPositions == [] && editingCandidateId == None
    {
      selectedElectionId := "";
      name := "";
      description := "";
      startDate := DateInput("", None);
      endDate := DateInput("", None);
      candidates := [];
      candidateName := "";
      candidatePosition := "";
      customPosition := "";
      customPositions := [];
      editingCandidateId := None;
      showCandidateForm := false;
    }

    /** `resetCandidateForm`. */
    method ResetCandidateForm()
      modifies this
      ensures candidateName == "" && candidatePosition == "" && customPosition == "" && editingCandidateId == None && !showCandidateForm
      ensures candidates == old(candidates) && customPositions == old(customPositions) && selectedElectionId == old(selectedElectionId)
      ensures name == old(name) && description == old(description) && startDate == old(startDate) && endDate == old(endDate)
    {
      candidateName := "";
      candidatePosition := "";
      customPosition := "";
      editingCandidateId := None;
      showCandidateForm := false;
    }

    /**
     * `handleSaveCandidate`: with a name and a resolved position, remember a
     * custom position, then either change the local list (no election saved
     * yet) or send the candidate to the server. The reply and the refetch
     * are not modelled.
     */
    method HandleSaveCandidate(now: int, backend: string) returns (out: CandidateSave)
      requires Valid()
      modifies this
      ensures Valid()
      ensures var pos := ResolvedPosition(old(candidatePosition), old(customPosition));
        out == MissingFields <==> old(candidateName) == "" || pos == ""
      ensures out == MissingFields ==>
        candidates == old(candidates) && customPositions == old(customPositions) &&
        candidateName == old(candidateName) && editingCandidateId == old(editingCandidateId)
      ensures out != MissingFields ==>
        var pos := ResolvedPosition(old(candidatePosition), old(customPosition));
        customPositions == (if old(candidatePosition) == Other then AddCustom(old(customPositions), pos) else old(customPositions))
      ensures out == SavedLocally <==> out != MissingFields && old(selectedElectionId) == ""
      ensures out == SavedLocally ==>
        var pos := ResolvedPosition(old(candidatePosition), old(customPosition));
        && candidates == (if old(editingCandidateId).Some? && old(editingCandidateId).value != ""
                          then EditLocal(old(candidates), old(editingCandidateId).value, old(candidateName), pos)
                          else AddLocal(old(candidates), old(candidateName), pos, now))
        && candidateName == "" && editingCandidateId == None && !showCandidateForm
      ensures out.SendCandidate? ==>
        var pos := ResolvedPosition(old(candidatePosition), old(customPosition));
        var base := backend + "/api/admin/elections/" + old(selectedElectionId) + "/candidates";
        && candidates == old(candidates)
        && out.name == old(candidateName) && out.position == pos
        && (if old(editingCandidateId).Some? && old(editingCandidateId).value != ""
            then out.httpMethod == "PUT" && out.url == base + "/" + old(editingCandidateId).value
            else out.httpMethod == "POST" && out.url == base)
    {
      var resolved := ResolvedPosition(candidatePosition, customPosition);
      if candidateName == "" || resolved == "" {
        return MissingFields;
      }
      if candidatePosition == Other && resolved != "" {
        customPositions := AddCustom(customPositions, resolved);
      }
      var editing := editingCandidateId.Some? && editingCandidateId.value != "";
      if selectedElectionId == "" {
        if editing {
          candidates := EditLocal(candidates, editingCandidateId.value, candidateName, resolved);
        } else {
          candidates := AddLocal(candidates, candidateName, resolved, now);
        }
        ResetCandidateForm();
        return SavedLocally;
      }
      var base := backend + "/api/admin/elections/" + selectedElectionId + "/candidates";
      if editing {
        out := SendCandidate("PUT", base + "/" + editingCandidateId.value, candidateName, resolved);
      } else {
        out := SendCandidate("POST", base, candidateName, resolved);
      }
    }

    /** `handleDeleteCandidate`: nothing without confirmation; a local id is filtered out without a request. */
    method HandleDeleteCandidate(candidateId: string, confirmed: bool, backend: string) returns (out: CandidateDelete)
      modifies this
      ensures !confirmed ==> out == Kept && candidates == old(candidates)
      ensures confirmed && StartsWith(candidateId, "local-") ==> out == RemovedLocally && candidates == DeleteLocal(old(candidates), candidateId)
      ensures confirmed && !StartsWith(candidateId, "local-") ==>
        out == DeleteOnServer(backend + "/api/admin/elections/" + old(selectedElectionId) + "/candidates/" + candidateId)
        && candidates == old(candidates)
      ensures customPositions == old(customPositions) && selectedElectionId == old(selectedElectionId)
    {
      if !confirmed {
        return Kept;
      }
      if StartsWith(candidateId, "local-") {
        candidates := DeleteLocal(candidates, candidateId);
        return RemovedLocally;
      }
      out := DeleteOnServer(backend + "/api/admin/elections/" + selectedElectionId + "/candidates/" + candidateId);
    }

    /** `handleEditCandidate`: fill the form from the candidate and open it. */
    method HandleEditCandidate(c: LocalCandidate)
      modifies this
      ensures candidateName == c.name && editingCandidateId == Some(c.id) && showCandidateForm
      ensures (candidatePosition, customPosition) == EditSelection(c.position, old(customPositions))
      ensures candidates == old(candidates) && customPositions == old(customPositions) && selectedElectionId == old(selectedElectionId)
    {
      candidateName := c.name;
      var sel := EditSelection(c.position, customPositions);
      candidatePosition := sel.0;
      customPosition := sel.1;
      editingCandidateId := Some(c.id);
      showCandidateForm := true;
    }
  }
}
