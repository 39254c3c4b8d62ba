/**
 * Election administration: creating, updating and deleting elections and
 * their candidates. The admin controller and the admin routes apply the
 * same rules; they differ only in how they treat the isActive flag.
 */
module ElectionAdmin {
  import opened Util
  import opened VotingModel

  /** Which of the two implementations handles the request. */
  datatype Api = Controller | Routes

  /**
   * An election request body. A missing or falsy date is None; a missing
   * name or description is "".
   */
  datatype ElectionRequest = ElectionRequest(
    name: string,
    description: string,
    startDate: Option<int>,
    endDate: Option<int>,
    isActive: Option<bool>)

  /**
   * The answers of the admin handlers. ServerError is the catch's 500
   * "Server error"; a catch that answers 400 instead gives BadRequest.
   */
  datatype AdminStatus =
    | Created | Updated | Deleted | Listed(candidates: seq<Candidate>)
    | BadRequest(message: string) | NotFound | ServerError

  function StatusCode(s: AdminStatus): int {
    match s
      case Created => 201
      case Updated => 200
      case Deleted => 200
      case Listed(_) => 200
      case BadRequest(_) => 400
      case NotFound => 404
      case ServerError => 500
  }

  const MissingFields := "Missing required fields."
  const StartAfterEnd := "Start date must be before end date."
  const VotingStarted := "Cannot delete election after voting period has started."
  // What the catches of the update and create handlers answer, with 400, when a query or a save throws.
  const UpdateElectionFailed := "Error updating election"
  const CreateCandidateFailed := "Error creating candidate"
  const UpdateCandidateFailed := "Error updating candidate"

  /** The two checks both create and update run first: required fields, then date order. */
  function ElectionRequestError(req: ElectionRequest): (r: Option<string>)
    ensures r.None? <==> req.name != "" && req.startDate.Some? && req.endDate.Some? && req.startDate.value < req.endDate.value
    ensures r.Some? ==> r.value == (if req.name == "" || req.startDate.None? || req.endDate.None? then MissingFields else StartAfterEnd)
  {
    if req.name == "" || req.startDate.None? || req.endDate.None? then Some(MissingFields)
    else if req.startDate.value >= req.endDate.value then Some(StartAfterEnd)
    else None
  }

  /** isActive on create: the controller leaves the schema default, the routes take `isActive || false`. */
  function CreateIsActive(api: Api, isActive: Option<bool>): bool {
    match api
      case Controller => false
      case Routes => isActive == Some(true)
  }

  /** isActive on update: the controller keeps the stored flag, the routes take the given value or false. */
  function UpdateIsActive(api: Api, stored: bool, isActive: Option<bool>): bool {
    match api
      case Controller => stored
      case Routes => if isActive.Some? then isActive.value else false
  }

  function FindElection(elections: seq<Election>, id: string): (r: Option<nat>)
    ensures r.Some? ==> r.value < |elections| && elections[r.value].id == id
    ensures r.None? <==> forall k :: 0 <= k < |elections| ==> elections[k].id != id
  {
    if elections == [] then None
    else if elections[0].id == id then Some(0)
    else match FindElection(elections[1..], id)
      case None => None
      case Some(k) => Some(k + 1)
  }

  /** The election a valid create request stores under the new id. */
  function NewElection(api: Api, req: ElectionRequest, newId: string): Election
    requires ElectionRequestError(req).None?
  {
    Election(newId, req.name, req.description, req.startDate.value, req.endDate.value, CreateIsActive(api, req.isActive))
  }

  /** The stored election after a valid update request. */
  function UpdatedElection(api: Api, e: Election, req: ElectionRequest): Election
    requires ElectionRequestError(req).None?
  {
    Election(e.id, req.name, req.description, req.startDate.value, req.endDate.value, UpdateIsActive(api, e.isActive, req.isActive))
  }

  /**
   * The routes store description "" and isActive false when they are
   * omitted, and an update through the routes resets an omitted isActive
   * to false, while the controller's update keeps the stored flag.
   */
  lemma ElectionDefaults(req: ElectionRequest, e: Election, newId: string)
    requires ElectionRequestError(req).None?
    requires req.isActive.None?
    ensures !NewElection(Routes, req, newId).isActive && !NewElection(Controller, req, newId).isActive
    ensures !UpdatedElection(Routes, e, req).isActive
    ensures UpdatedElection(Controller, e, req).isActive == e.isActive
    ensures UpdatedElection(Routes, e, req).id == e.id && UpdatedElection(Controller, e, req).id == e.id
  {
  }

  /** createElection / POST: validate, then append the new election. */
  method CreateElection(db: Database, api: Api, req: ElectionRequest, newId: string) returns (status: AdminStatus)
    requires db.Valid()
    requires forall k :: 0 <= k < |db.elections| ==> db.elections[k].id != newId
    modifies db
    ensures ElectionRequestError(req).Some? ==> status == BadRequest(ElectionRequestError(req).value) && unchanged(db)
    ensures ElectionRequestError(req).None? ==>
      status == Created && db.elections == old(db.elections) + [NewElection(api, req, newId)]
    ensures db.candidates == old(db.candidates) && db.ballotInfos == old(db.ballotInfos) && db.votes == old(db.votes)
    ensures db.Valid()
  {
    var err := ElectionRequestError(req);
    if err.Some? {
      return BadRequest(err.value);
    }
    db.elections := db.elections + [NewElection(api, req, newId)];
    status := Created;
  }

  /**
   * updateElection / PUT: validation comes before the lookup, so a bad body
   * wins over an unknown id; an id that does not cast makes the lookup
   * throw, which the catch answers with 400.
   */
  method UpdateElection(db: Database, api: Api, id: string, req: ElectionRequest) returns (status: AdminStatus)
    requires db.Valid()
    modifies db
    ensures ElectionRequestError(req).Some? ==> status == BadRequest(ElectionRequestError(req).value) && unchanged(db)
    ensures ElectionRequestError(req).None? && !IsObjectId(id) ==> status == BadRequest(UpdateElectionFailed) && unchanged(db)
    ensures ElectionRequestError(req).None? && IsObjectId(id) && FindElection(old(db.elections), id).None? ==>
      status == NotFound && unchanged(db)
    ensures ElectionRequestError(req).None? && IsObjectId(id) && FindElection(old(db.elections), id).Some? ==>
      var k := FindElection(old(db.elections), id).value;
      status == Updated && db.elections == old(db.elections)[k := UpdatedElection(api, old(db.elections)[k], req)]
    ensures db.candidates == old(db.candidates) && db.ballotInfos == old(db.ballotInfos) && db.votes == old(db.votes)
    ensures db.Valid()
  {
    var err := ElectionRequestError(req);
    if err.Some? {
      return BadRequest(err.value);
    }
    if !IsObjectId(id) {
      return BadRequest(UpdateElectionFailed);
    }
    var found := FindElection(db.elections, id);
    if found.None? {
      return NotFound;
    }
    var k := found.value;
    db.elections := db.elections[k := UpdatedElection(api, db.elections[k], req)];
    status := Updated;
  }

  // =====================================================================
  // Cascade delete
  // =====================================================================

  function CandidatesNotOf(cs: seq<Candidate>, id: string): (r: seq<Candidate>)
    ensures forall c :: c in r <==> c in cs && c.electionId != id
    ensures UniqueIds(cs) ==> UniqueIds(r)
    ensures |r| <= |cs|
  {
    if cs == [] then []
    else
      var rest := CandidatesNotOf(cs[1..], id);
      if cs[0].electionId != id then
        UniqueIdsCons(cs, rest);
        [cs[0]] + rest
      else rest
  }

  function InfosNotOf(infos: seq<StudentBallotInfo>, id: string): (r: seq<StudentBallotInfo>)
    ensures forall b :: b in r <==> b in infos && b.electionId != id
    ensures UniqueBallotInfo(infos) ==> UniqueBallotInfo(r)
  {
    if infos == [] then []
    else
      var rest := InfosNotOf(infos[1..], id);
      if infos[0].electionId != id then
        UniqueBallotInfoCons(infos, rest);
        [infos[0]] + rest
      else rest
  }

  function VotesNotOf(votes: seq<Vote>, id: string): (r: seq<Vote>)
    ensures forall v :: v in r <==> v in votes && v.electionId != id
  {
    if votes == [] then []
    else (if votes[0].electionId != id then [votes[0]] else []) + VotesNotOf(votes[1..], id)
  }

  function ElectionsNot(elections: seq<Election>, id: string): (r: seq<Election>)
    ensures forall e :: e in r <==> e in elections && e.id != id
    ensures UniqueElectionIds(elections) ==> UniqueElectionIds(r)
  {
    if elections == [] then []
    else
      var rest := ElectionsNot(elections[1..], id);
      if elections[0].id != id then
        UniqueElectionIdsCons(elections, rest);
        [elections[0]] + rest
      else rest
  }

  /** Whether a delete request at time `now` may go ahead; the lookup throws on an id that does not cast. */
  function DeleteDecision(elections: seq<Election>, id: string, now: int): AdminStatus {
    if !IsObjectId(id) then ServerError
    else match FindElection(elections, id)
      case None => NotFound
      case Some(k) => if now >= elections[k].startDate then BadRequest(VotingStarted) else Deleted
  }

  /**
   * Deletion is allowed iff the election exists and voting has not
   * started; an election that has started can never be deleted.
   */
  lemma DeleteOnlyBeforeStart(elections: seq<Election>, id: string, now: int)
    requires UniqueElectionIds(elections)
    ensures DeleteDecision(elections, id, now).Deleted? <==>
      IsObjectId(id) && exists k :: 0 <= k < |elections| && elections[k].id == id && now < elections[k].startDate
    ensures DeleteDecision(elections, id, now).NotFound? <==>
      IsObjectId(id) && forall k :: 0 <= k < |elections| ==> elections[k].id != id
    ensures DeleteDecision(elections, id, now).ServerError? <==> !IsObjectId(id)
  {
  }

  /** deleteElection / DELETE: after the checks, every record of the election goes, then the election. */
  method DeleteElection(db: Database, id: string, now: int) returns (status: AdminStatus)
    requires db.Valid()
    modifies db
    ensures status == DeleteDecision(old(db.elections), id, now)
    ensures !status.Deleted? ==> unchanged(db)
    ensures status.Deleted? ==>
      && db.candidates == CandidatesNotOf(old(db.candidates), id)
      && db.ballotInfos == InfosNotOf(old(db.ballotInfos), id)
      && db.votes == VotesNotOf(old(db.votes), id)
      && db.elections == ElectionsNot(old(db.elections), id)
    ensures db.Valid()
  {
    status := DeleteDecision(db.elections, id, now);
    if !status.Deleted? {
      return;
    }
    db.candidates := CandidatesNotOf(db.candidates, id);
    db.ballotInfos := InfosNotOf(db.ballotInfos, id);
    db.votes := VotesNotOf(db.votes, id);
    db.elections := ElectionsNot(db.elections, id);
  }

  /**
   * After a cascade delete nothing refers to the election any more, and
   * every record of the other elections is still there.
   */
  lemma CascadeLeavesNoOrphans(cands: seq<Candidate>, infos: seq<StudentBallotInfo>, votes: seq<Vote>,
                               elections: seq<Election>, id: string)
    ensures forall c :: c in CandidatesNotOf(cands, id) <==> c in cands && c.electionId != id
    ensures forall b :: b in InfosNotOf(infos, id) <==> b in infos && b.electionId != id
    ensures forall v :: v in VotesNotOf(votes, id) <==> v in votes && v.electionId != id
    ensures forall e :: e in ElectionsNot(elections, id) <==> e in elections && e.id != id
  {
  }

  // =====================================================================
  // Candidates
  // =====================================================================

  /** The database order of `sort({ position: 1, name: 1 })`: by position, then by name. */
  function CandidateLe(a: Candidate, b: Candidate): bool {
    if a.position == b.position then StringLe(a.name, b.name) else StringLe(a.position, b.position)
  }

  lemma CandidateLeTotalPreorder()
    ensures TotalPreorder(CandidateLe)
  {
    forall a: Candidate, b: Candidate ensures CandidateLe(a, b) || CandidateLe(b, a) {
      StringLeTotal(a.name, b.name);
      StringLeTotal(a.position, b.position);
    }
    forall a: Candidate, b: Candidate, c: Candidate | CandidateLe(a, b) && CandidateLe(b, c)
      ensures CandidateLe(a, c)
    {
      if a.position == b.position && b.position == c.position {
        StringLeTransitive(a.name, b.name, c.name);
      } else {
        if a.position != b.position && b.position != c.position {
          StringLeTransitive(a.position, b.position, c.position);
        }
        if a.position == c.position {
          StringLeAntisymmetric(a.position, b.position);
        }
      }
    }
  }

  function CandidatesOf(cands: seq<Candidate>, electionId: string): (r: seq<Candidate>)
    ensures forall c :: c in r <==> c in cands && c.electionId == electionId
  {
    if cands == [] then []
    else (if cands[0].electionId == electionId then [cands[0]] else []) + CandidatesOf(cands[1..], electionId)
  }

  /**
   * getCandidatesByElection / GET candidates: 500 for an election id that
   * does not cast, 404 for an unknown election, else the sorted list.
   */
  function ListCandidates(elections: seq<Election>, cands: seq<Candidate>, electionId: string): AdminStatus {
    if !IsObjectId(electionId) then ServerError
    else if FindElection(elections, electionId).None? then NotFound
    else
      CandidateLeTotalPreorder();
      Listed(SortBy(CandidatesOf(cands, electionId), CandidateLe))
  }

  /** A list sorted by CandidateLe is ordered by position, then by name within a position. */
  lemma CandidateOrder(s: seq<Candidate>)
    requires SortedBy(s, CandidateLe)
    ensures forall i, j :: 0 <= i < j < |s| ==>
      && StringLe(s[i].position, s[j].position)
      && (s[i].position == s[j].position ==> StringLe(s[i].name, s[j].name))
  {
    forall i, j | 0 <= i < j < |s|
      ensures StringLe(s[i].position, s[j].position)
    {
      assert CandidateLe(s[i], s[j]);
      StringLeTotal(s[i].position, s[j].position);
    }
  }

  /** The listing holds exactly the election's candidates, each as often as stored, ordered by position then name. */
  lemma ListCandidatesSorted(elections: seq<Election>, cands: seq<Candidate>, electionId: string)
    ensures ListCandidates(elections, cands, electionId).ServerError? <==> !IsObjectId(electionId)
    ensures ListCandidates(elections, cands, electionId).NotFound? <==>
      IsObjectId(electionId) && forall k :: 0 <= k < |elections| ==> elections[k].id != electionId
    ensures ListCandidates(elections, cands, electionId).Listed? ==>
      var s := ListCandidates(elections, cands, electionId).candidates;
      && multiset(s) == multiset(CandidatesOf(cands, electionId))
      && (forall c :: c in s <==> c in cands && c.electionId == electionId)
      && forall i, j :: 0 <= i < j < |s| ==>
           && StringLe(s[i].position, s[j].position)
           && (s[i].position == s[j].position ==> StringLe(s[i].name, s[j].name))
  {
    if IsObjectId(electionId) && FindElection(elections, electionId).Some? {
      CandidateLeTotalPreorder();
      var s := SortBy(CandidatesOf(cands, electionId), CandidateLe);
      assert ListCandidates(elections, cands, electionId).candidates == s;
      forall c ensures c in s <==> c in CandidatesOf(cands, electionId) {
        assert c in s <==> c in multiset(s);
        assert c in CandidatesOf(cands, electionId) <==> c in multiset(CandidatesOf(cands, electionId));
      }
      CandidateOrder(s);
    }
  }

  datatype CandidateRequest = CandidateRequest(name: string, position: string)

  predicate MissingCandidateFields(req: CandidateRequest) {
    req.name == "" || req.position == ""
  }

  /** Both ids of a candidate filter cast to object ids, so the query does not throw. */
  predicate FilterCasts(electionId: string, candidateId: string) {
    IsObjectId(candidateId) && IsObjectId(electionId)
  }

  /** The table index of the candidate with this id in this election. */
  function FindCandidate(cands: seq<Candidate>, electionId: string, candidateId: string): (r: Option<nat>)
    ensures r.Some? ==> r.value < |cands| && cands[r.value].id == candidateId && cands[r.value].electionId == electionId
    ensures r.None? <==> forall k :: 0 <= k < |cands| ==> !(cands[k].id == candidateId && cands[k].electionId == electionId)
  {
    if cands == [] then None
    else if cands[0].id == candidateId && cands[0].electionId == electionId then Some(0)
    else match FindCandidate(cands[1..], electionId, candidateId)
      case None => None
      case Some(k) => Some(k + 1)
  }

  /**
   * createCandidate / POST candidates: name and position are required;
   * the election id is not looked up, only cast when the document is
   * saved (a failed cast is the catch's 400), and writeIn is left unset.
   */
  method CreateCandidate(db: Database, electionId: string, req: CandidateRequest, newId: string) returns (status: AdminStatus)
    requires db.Valid()
    requires forall k :: 0 <= k < |db.candidates| ==> db.candidates[k].id != newId
    modifies db
    ensures MissingCandidateFields(req) ==> status == BadRequest(MissingFields) && unchanged(db)
    ensures !MissingCandidateFields(req) && !IsObjectId(electionId) ==> status == BadRequest(CreateCandidateFailed) && unchanged(db)
    ensures !MissingCandidateFields(req) && IsObjectId(electionId) ==>
      status == Created && db.candidates == old(db.candidates) + [Candidate(newId, electionId, req.name, req.position, false)]
    ensures db.elections == old(db.elections) && db.ballotInfos == old(db.ballotInfos) && db.votes == old(db.votes)
    ensures db.Valid()
  {
    if MissingCandidateFields(req) {
      return BadRequest(MissingFields);
    }
    if !IsObjectId(electionId) {
      return BadRequest(CreateCandidateFailed);
    }
    db.candidates := db.candidates + [Candidate(newId, electionId, req.name, req.position, false)];
    status := Created;
  }

  /**
   * updateCandidate / PUT candidate: only the record matching both ids
   * changes, and only its name and position; a filter id that does not
   * cast makes the query throw, which the catch answers with 400.
   */
  method UpdateCandidate(db: Database, electionId: string, candidateId: string, req: CandidateRequest)
    returns (status: AdminStatus)
    requires db.Valid()
    modifies db
    ensures MissingCandidateFields(req) ==> status == BadRequest(MissingFields) && unchanged(db)
    ensures !MissingCandidateFields(req) && !FilterCasts(electionId, candidateId) ==>
      status == BadRequest(UpdateCandidateFailed) && unchanged(db)
    ensures !MissingCandidateFields(req) && FilterCasts(electionId, candidateId) && FindCandidate(old(db.candidates), electionId, candidateId).None? ==>
      status == NotFound && unchanged(db)
    ensures !MissingCandidateFields(req) && FilterCasts(electionId, candidateId) && FindCandidate(old(db.candidates), electionId, candidateId).Some? ==>
      var k := FindCandidate(old(db.candidates), electionId, candidateId).value;
      status == Updated
      && db.candidates == old(db.candidates)[k := old(db.candidates)[k].(name := req.name, position := req.position)]
    ensures db.elections == old(db.elections) && db.ballotInfos == old(db.ballotInfos) && db.votes == old(db.votes)
    ensures db.Valid()
  {
    if MissingCandidateFields(req) {
      return BadRequest(MissingFields);
    }
    if !FilterCasts(electionId, candidateId) {
      return BadRequest(UpdateCandidateFailed);
    }
    var found := FindCandidate(db.candidates, electionId, candidateId);
    if found.None? {
      return NotFound;
    }
    var k := found.value;
    db.candidates := db.candidates[k := db.candidates[k].(name := req.name, position := req.position)];
    status := Updated;
  }

  /** deleteCandidate / DELETE candidate: removes the record matching both ids, else 404; 500 when a filter id does not cast. */
  method DeleteCandidate(db: Database, electionId: string, candidateId: string) returns (status: AdminStatus)
    requires db.Valid()
    modifies db
    ensures !FilterCasts(electionId, candidateId) ==> status == ServerError && unchanged(db)
    ensures FilterCasts(electionId, candidateId) && FindCandidate(old(db.candidates), electionId, candidateId).None? ==>
      status == NotFound && unchanged(db)
    ensures FilterCasts(electionId, candidateId) && FindCandidate(old(db.candidates), electionId, candidateId).Some? ==>
      status == Deleted
      && db.candidates == RemoveAt(old(db.candidates), FindCandidate(old(db.candidates), electionId, candidateId).value)
    ensures db.elections == old(db.elections) && db.ballotInfos == old(db.ballotInfos) && db.votes == old(db.votes)
    ensures db.Valid()
  {
    if !FilterCasts(electionId, candidateId) {
      return ServerError;
    }
    var found := FindCandidate(db.candidates, electionId, candidateId);
    if found.None? {
      return NotFound;
    }
    db.candidates := RemoveAt(db.candidates, found.value);
    status := Deleted;
  }

  /**
   * Deleting a candidate removes exactly the one record with that id (ids
   * being unique) when it belongs to the election, and nothing else.
   */
  lemma DeleteCandidateExact(cands: seq<Candidate>, electionId: string, candidateId: string)
    requires UniqueIds(cands)
    requires FindCandidate(cands, electionId, candidateId).Some?
    ensures var r := RemoveAt(cands, FindCandidate(cands, electionId, candidateId).value);
      && UniqueIds(r)
      && (forall c :: c in r <==> c in cands && c.id != candidateId)
  {
    var k := FindCandidate(cands, electionId, candidateId).value;
    var r := RemoveAt(cands, k);
    forall c | c in cands && c.id != candidateId ensures c in r {
      var i :| 0 <= i < |cands| && cands[i] == c;
      if i < k {
        assert r[i] == c;
      } else {
        assert i > k;
        assert r[i - 1] == c;
      }
    }
    forall c | c in r ensures c in cands && c.id != candidateId {
      var i :| 0 <= i < |r| && r[i] == c;
      if i >= k {
        assert r[i] == cands[i + 1];
      }
    }
  }
}
