/**
 * The student side of an election: which candidates a student's ballot
 * shows, whether a submitted ranking is acceptable, write-in creation, and
 * recording a student's votes at most once.
 */
module Voting {
  import opened Util
  import opened VotingModel

  // =====================================================================
  // Ballot composition
  // =====================================================================

  /** The eight positions that only some students vote for. */
  const RestrictedPositions: seq<string> := [
    FirstYearClassPresident, SophomoreClassPresident, JuniorClassPresident, SeniorClassPresident,
    NorthCampusRepresentative, SouthCampusRepresentative, CommencementSpeaker, ClassName]

  /** The election's candidates whose position is (or, with `inside` false, is not) in `positions`, in table order. */
  function ByPosition(cands: seq<Candidate>, electionId: string, positions: seq<string>, inside: bool): (r: seq<Candidate>)
    ensures forall k :: 0 <= k < |r| ==> r[k] in cands
    ensures forall c :: c in r <==> c in cands && c.electionId == electionId && ((c.position in positions) == inside)
  {
    if cands == [] then []
    else
      var c := cands[0];
      (if c.electionId == electionId && (c.position in positions) == inside then [c] else [])
      + ByPosition(cands[1..], electionId, positions, inside)
  }

  /** The class position(s) a student of the given year votes for. */
  function ClassPositions(year: int): seq<string> {
    if year == 4 then [CommencementSpeaker, ClassName]
    else if year == 1 then [SophomoreClassPresident]
    else if year == 2 then [JuniorClassPresident]
    else if year == 3 then [SeniorClassPresident]
    else []
  }

  /** getClassRepCandidates: seniors get speaker and class name; years 1-3 one class president; others nothing. */
  function ClassRepCandidates(cands: seq<Candidate>, electionId: string, year: int): seq<Candidate> {
    if year == 4 then ByPosition(cands, electionId, [CommencementSpeaker, ClassName], true)
    else if year in {1, 2, 3} then ByPosition(cands, electionId, ClassPositions(year), true)
    else []
  }

  /** getCampusRepCandidates: north or south selects that campus representative, anything else nothing. */
  function CampusRepCandidates(cands: seq<Candidate>, electionId: string, housingStatus: string): seq<Candidate> {
    if housingStatus == "north" then ByPosition(cands, electionId, [NorthCampusRepresentative], true)
    else if housingStatus == "south" then ByPosition(cands, electionId, [SouthCampusRepresentative], true)
    else []
  }

  /** getAllOtherCandidates: every candidate of the election outside the restricted positions. */
  function OtherCandidates(cands: seq<Candidate>, electionId: string): seq<Candidate> {
    ByPosition(cands, electionId, RestrictedPositions, false)
  }

  /** The candidate list getBallot returns: campus representative, then class, then the rest. */
  function BallotCandidates(cands: seq<Candidate>, info: StudentBallotInfo): seq<Candidate> {
    CampusRepCandidates(cands, info.electionId, info.campusRep)
    + ClassRepCandidates(cands, info.electionId, info.year)
    + OtherCandidates(cands, info.electionId)
  }

  /**
   * Whether a student votes on a position, stated position by position:
   * every unrestricted position; a class president of the year above the
   * student's (1 votes for sophomore, 2 for junior, 3 for senior); speaker
   * and class name for year 4; the representative of the student's campus.
   */
  predicate VotesOn(info: StudentBallotInfo, position: string) {
    || position !in RestrictedPositions
    || (position == SophomoreClassPresident && info.year == 1)
    || (position == JuniorClassPresident && info.year == 2)
    || (position == SeniorClassPresident && info.year == 3)
    || ((position == CommencementSpeaker || position == ClassName) && info.year == 4)
    || (position == NorthCampusRepresentative && info.campusRep == "north")
    || (position == SouthCampusRepresentative && info.campusRep == "south")
  }

  /** A ballot holds exactly the election's candidates on positions the student votes on. */
  lemma BallotMembership(cands: seq<Candidate>, info: StudentBallotInfo, c: Candidate)
    ensures c in BallotCandidates(cands, info) <==>
      c in cands && c.electionId == info.electionId && VotesOn(info, c.position)
  {
  }

  /** No one votes for the first-year class president: no year maps to it. */
  lemma FirstYearPresidentNeverOnBallot(cands: seq<Candidate>, info: StudentBallotInfo, c: Candidate)
    requires c.position == FirstYearClassPresident
    ensures c !in BallotCandidates(cands, info)
  {
    BallotMembership(cands, info, c);
  }

  /** BallotFailed is the 500 the catch answers when the election id cannot be cast to an object id. */
  datatype BallotResponse = BallotFailed | StudentNotFound | Ballot(candidates: seq<Candidate>)

  /** The (election, email) ballot-info record, if any, whatever its hasVoted flag. */
  function FindInfo(infos: seq<StudentBallotInfo>, electionId: string, email: string): (r: Option<nat>)
    ensures r.Some? ==> r.value < |infos| && infos[r.value].electionId == electionId && infos[r.value].email == email
    ensures r.None? ==> forall k :: 0 <= k < |infos| ==> !(infos[k].electionId == electionId && infos[k].email == email)
  {
    if infos == [] then None
    else if infos[0].electionId == electionId && infos[0].email == email then Some(0)
    else match FindInfo(infos[1..], electionId, email)
      case None => None
      case Some(k) => Some(k + 1)
  }

  /**
   * getBallot: 500 when the election id does not cast, 404 for an
   * unregistered student, else the composed list (voting already or not).
   */
  function GetBallot(cands: seq<Candidate>, infos: seq<StudentBallotInfo>, electionId: string, email: string): (r: BallotResponse)
    ensures r.BallotFailed? <==> !IsObjectId(electionId)
    ensures r.StudentNotFound? <==>
      IsObjectId(electionId) && forall k :: 0 <= k < |infos| ==> !(infos[k].electionId == electionId && infos[k].email == email)
    ensures r.Ballot? ==> exists k ::
      && 0 <= k < |infos| && infos[k].electionId == electionId && infos[k].email == email
      && r.candidates == BallotCandidates(cands, infos[k])
  {
    if !IsObjectId(electionId) then BallotFailed
    else match FindInfo(infos, electionId, email)
      case None => StudentNotFound
      case Some(k) => Ballot(BallotCandidates(cands, infos[k]))
  }

  // =====================================================================
  // Ballot validation
  // =====================================================================

  datatype VoteRequest = VoteRequest(position: string, ranking: seq<string>)

  /** The ids of a ranking as a set (`new Set(ranking)`). */
  function RankSet(r: seq<string>): set<string> {
    set k | 0 <= k < |r| :: r[k]
  }

  /** Candidates whose id is ranked and whose position matches (the `$in` query); with `writeInsOnly`, just the write-ins. */
  function Ranked(cands: seq<Candidate>, ranking: seq<string>, position: string, writeInsOnly: bool): (r: seq<Candidate>)
    ensures forall k :: 0 <= k < |r| ==>
      r[k] in cands && r[k].id in ranking && r[k].position == position && (writeInsOnly ==> r[k].writeIn)
    ensures forall k ::
      (0 <= k < |cands| && cands[k].id in ranking && cands[k].position == position
       && (writeInsOnly ==> cands[k].writeIn)) ==> cands[k] in r
    ensures UniqueIds(cands) ==> UniqueIds(r)
  {
    if cands == [] then []
    else
      var c := cands[0];
      var rest := Ranked(cands[1..], ranking, position, writeInsOnly);
      if c.id in ranking && c.position == position && (writeInsOnly ==> c.writeIn) then
        UniqueIdsCons(cands, rest);
        [c] + rest
      else rest
  }

  function WriteInCount(cs: seq<Candidate>): nat {
    if cs == [] then 0 else (if cs[0].writeIn then 1 else 0) + WriteInCount(cs[1..])
  }

  /** isValidBallot, check by check in the source's order. */
  function IsValidBallot(v: VoteRequest, cands: seq<Candidate>): bool {
    if |v.ranking| == 0 then false
    else if !(forall i :: 0 <= i < |v.ranking| ==> IsObjectId(v.ranking[i])) then false
    else if |RankSet(v.ranking)| != |v.ranking| then false
    else
      var valid := Ranked(cands, v.ranking, v.position, false);
      if |valid| != |v.ranking| then false
      else WriteInCount(valid) <= 1
  }

  /** Some candidate with this id holds this position. */
  predicate IsCandidateAt(cands: seq<Candidate>, id: string, position: string) {
    exists k :: 0 <= k < |cands| && cands[k].id == id && cands[k].position == position
  }

  /** Some write-in candidate with this id holds this position. */
  predicate IsWriteInAt(cands: seq<Candidate>, id: string, position: string) {
    exists k :: 0 <= k < |cands| && cands[k].id == id && cands[k].position == position && cands[k].writeIn
  }

  /**
   * What isValidBallot accepts, without the queries: a non-empty ranking
   * of well-formed, distinct ids, each a candidate for the position (of
   * any election), at most one of them a write-in.
   */
  lemma IsValidBallotMeaning(v: VoteRequest, cands: seq<Candidate>)
    requires UniqueIds(cands)
    ensures IsValidBallot(v, cands) <==>
      && |v.ranking| > 0
      && (forall i :: 0 <= i < |v.ranking| ==> IsObjectId(v.ranking[i]))
      && NoDup(v.ranking)
      && (forall i :: 0 <= i < |v.ranking| ==> IsCandidateAt(cands, v.ranking[i], v.position))
      && |set id | id in v.ranking && IsWriteInAt(cands, id, v.position)| <= 1
  {
    RankSetSize(v.ranking);
    if NoDup(v.ranking) {
      AllRankedFound(cands, v.ranking, v.position);
      RankedWriteIns(cands, v.ranking, v.position);
    }
  }

  /** With distinct ids, the query returns one document per ranked id iff every ranked id is a candidate there. */
  lemma AllRankedFound(cands: seq<Candidate>, r: seq<string>, position: string)
    requires UniqueIds(cands) && NoDup(r)
    ensures |Ranked(cands, r, position, false)| == |r| <==>
      forall i :: 0 <= i < |r| ==> IsCandidateAt(cands, r[i], position)
  {
    var valid := Ranked(cands, r, position, false);
    var atPos := set id | id in r && IsCandidateAt(cands, id, position);
    RankSetSize(r);
    RankedIds(cands, r, position, false);
    IdSetSize(valid);
    assert atPos <= RankSet(r);
    if |valid| == |r| {
      SubsetOfEqualSize(atPos, RankSet(r));
      forall i | 0 <= i < |r| ensures IsCandidateAt(cands, r[i], position) {
        assert r[i] in RankSet(r);
      }
    }
    if forall i :: 0 <= i < |r| ==> IsCandidateAt(cands, r[i], position) {
      assert atPos == RankSet(r);
    }
  }

  /** The write-ins among the returned documents are as many as the ranked write-in ids. */
  lemma RankedWriteIns(cands: seq<Candidate>, r: seq<string>, position: string)
    requires UniqueIds(cands)
    ensures WriteInCount(Ranked(cands, r, position, false)) == |set id | id in r && IsWriteInAt(cands, id, position)|
  {
    RankedIds(cands, r, position, true);
    IdSetSize(Ranked(cands, r, position, true));
    WriteInCountOfRanked(cands, r, position);
  }

  function IdSet(cs: seq<Candidate>): set<string> {
    set k | 0 <= k < |cs| :: cs[k].id
  }

  lemma {:induction false} IdSetSize(cs: seq<Candidate>)
    requires UniqueIds(cs)
    ensures |IdSet(cs)| == |cs|
  {
    if cs != [] {
      IdSetSize(cs[1..]);
      assert IdSet(cs) == {cs[0].id} + IdSet(cs[1..]) by {
        forall id | id in IdSet(cs) ensures id in {cs[0].id} + IdSet(cs[1..]) {
          var k :| 0 <= k < |cs| && cs[k].id == id;
          if k > 0 {
            assert cs[1..][k - 1] == cs[k];
          }
        }
      }
      assert cs[0].id !in IdSet(cs[1..]);
    }
  }

  lemma RankedIds(cands: seq<Candidate>, ranking: seq<string>, position: string, writeInsOnly: bool)
    ensures IdSet(Ranked(cands, ranking, position, writeInsOnly)) ==
      if writeInsOnly then set id | id in ranking && IsWriteInAt(cands, id, position)
      else set id | id in ranking && IsCandidateAt(cands, id, position)
  {
    var r := Ranked(cands, ranking, position, writeInsOnly);
    forall id | id in ranking && (if writeInsOnly then IsWriteInAt(cands, id, position) else IsCandidateAt(cands, id, position))
      ensures id in IdSet(r)
    {
      var k :| 0 <= k < |cands| && cands[k].id == id && cands[k].position == position && (writeInsOnly ==> cands[k].writeIn);
      var j :| 0 <= j < |r| && r[j] == cands[k];
    }
  }

  lemma {:induction false} WriteInCountOfRanked(cands: seq<Candidate>, ranking: seq<string>, position: string)
    ensures WriteInCount(Ranked(cands, ranking, position, false)) == |Ranked(cands, ranking, position, true)|
  {
    if cands != [] {
      WriteInCountOfRanked(cands[1..], ranking, position);
      var c := cands[0];
      if c.id in ranking && c.position == position {
        assert ([c] + Ranked(cands[1..], ranking, position, false))[1..] == Ranked(cands[1..], ranking, position, false);
      }
    }
  }

  lemma {:induction false} RankSetSize(r: seq<string>)
    ensures |RankSet(r)| <= |r|
    ensures |RankSet(r)| == |r| <==> NoDup(r)
  {
    if r != [] {
      RankSetSize(r[1..]);
      assert RankSet(r) == {r[0]} + RankSet(r[1..]) by {
        forall x | x in RankSet(r) ensures x in {r[0]} + RankSet(r[1..]) {
          var k :| 0 <= k < |r| && r[k] == x;
          if k > 0 {
            assert r[1..][k - 1] == r[k];
          }
        }
      }
      if r[0] in r[1..] {
        assert r[0] in RankSet(r[1..]);
        assert RankSet(r) == RankSet(r[1..]);
        var k :| 0 <= k < |r[1..]| && r[1..][k] == r[0];
        assert r[k + 1] == r[0];
      } else {
        assert r[0] !in RankSet(r[1..]);
        assert NoDup(r) <==> NoDup(r[1..]) by {
          if NoDup(r[1..]) {
            forall i, j | 0 <= i < j < |r| ensures r[i] != r[j] {
              if i > 0 {
                assert r[1..][i - 1] == r[i] && r[1..][j - 1] == r[j];
              } else {
                assert r[j] == r[1..][j - 1];
              }
            }
          }
          if NoDup(r) {
            forall i, j | 0 <= i < j < |r[1..]| ensures r[1..][i] != r[1..][j] {
              assert r[1..][i] == r[i + 1] && r[1..][j] == r[j + 1];
            }
          }
        }
      }
    }
  }

  lemma SubsetOfEqualSize(a: set<string>, b: set<string>)
    requires a <= b && |a| == |b|
    ensures a == b
  {
    if a != b {
      var x :| x in b && x !in a;
      assert a <= b - {x};
      assert |b - {x}| == |b| - 1;
      SubsetSize(a, b - {x});
    }
  }

  lemma SubsetSize(a: set<string>, b: set<string>)
    requires a <= b
    ensures |a| <= |b|
  {
    assert b == a + (b - a);
  }

  // =====================================================================
  // Write-in candidates
  // =====================================================================

  /** WriteInFailed is the 500 the catch answers when `findOne` cannot cast the election id. */
  datatype WriteInResult = MissingNames | WriteInFailed | Existing(candidate: Candidate) | Created(candidate: Candidate)

  function WriteInStatus(r: WriteInResult): int {
    match r
      case MissingNames => 400
      case WriteInFailed => 500
      case Existing(_) => 200
      case Created(_) => 201
  }

  /** The first candidate of the election at `position` whose name equals `name` ignoring case. */
  /** The `findOne` filter: same election and position, and the name equal up to letter case. */
  predicate NameMatch(c: Candidate, electionId: string, name: string, position: string) {
    c.electionId == electionId && ToLower(c.name) == ToLower(name) && c.position == position
  }

  function FindByNameIgnoringCase(cands: seq<Candidate>, electionId: string, name: string, position: string): (r: Option<nat>)
    ensures r.Some? ==> r.value < |cands| && NameMatch(cands[r.value], electionId, name, position)
    ensures r.Some? ==> forall k :: 0 <= k < r.value ==> !NameMatch(cands[k], electionId, name, position)
    ensures r.None? ==> forall k :: 0 <= k < |cands| ==> !NameMatch(cands[k], electionId, name, position)
  {
    if cands == [] then None
    else if NameMatch(cands[0], electionId, name, position) then Some(0)
    else match FindByNameIgnoringCase(cands[1..], electionId, name, position)
      case None => None
      case Some(k) => Some(k + 1)
  }

  /** createWriteInCandidate on the candidate table; `newId` is the id the database assigns. */
  function WriteIn(cands: seq<Candidate>, electionId: string, firstName: string, lastName: string,
                   position: string, newId: string): WriteInResult
  {
    if Trim(firstName) == [] || Trim(lastName) == [] || Trim(position) == [] then MissingNames
    else if !IsObjectId(electionId) then WriteInFailed
    else
      var name := Trim(firstName) + " " + Trim(lastName);
      match FindByNameIgnoringCase(cands, electionId, name, position)
        case Some(k) => Existing(cands[k])
        case None => Created(Candidate(newId, electionId, name, position, true))
  }

  /** The candidate table after a write-in request. */
  function AfterWriteIn(cands: seq<Candidate>, r: WriteInResult): seq<Candidate> {
    if r.Created? then cands + [r.candidate] else cands
  }

  /**
   * A write-in is refused iff a trimmed name part or the position is
   * blank; otherwise it fails iff the election id does not cast; a
   * returned record is an existing case-insensitive match; a created one
   * is a write-in named "first last" and no match existed.
   */
  lemma WriteInOutcome(cands: seq<Candidate>, electionId: string, firstName: string, lastName: string,
                       position: string, newId: string)
    ensures var r := WriteIn(cands, electionId, firstName, lastName, position, newId);
      var name := Trim(firstName) + " " + Trim(lastName);
      && (r.MissingNames? <==> Trim(firstName) == [] || Trim(lastName) == [] || Trim(position) == [])
      && (r.WriteInFailed? <==> !r.MissingNames? && !IsObjectId(electionId))
      && (r.Existing? || r.Created? ==> IsObjectId(electionId))
      && (r.Existing? ==>
            && r.candidate in cands && r.candidate.electionId == electionId
            && r.candidate.position == position && ToLower(r.candidate.name) == ToLower(name))
      && (r.Created? ==>
            && r.candidate == Candidate(newId, electionId, name, position, true)
            && forall c :: c in cands && c.electionId == electionId && c.position == position
                 ==> ToLower(c.name) != ToLower(name))
  {
    var name := Trim(firstName) + " " + Trim(lastName);
    if Trim(firstName) != [] && Trim(lastName) != [] && Trim(position) != [] && IsObjectId(electionId) {
      var f := FindByNameIgnoringCase(cands, electionId, name, position);
      if f.None? {
        forall c | c in cands && c.electionId == electionId && c.position == position
          ensures ToLower(c.name) != ToLower(name)
        {
          var k :| 0 <= k < |cands| && cands[k] == c;
          assert !NameMatch(cands[k], electionId, name, position);
        }
      }
    }
  }

  /** Repeating a write-in request returns the record the first one created and creates nothing. */
  lemma WriteInIdempotent(cands: seq<Candidate>, electionId: string, firstName: string, lastName: string,
                          position: string, newId: string, newId2: string)
    requires WriteIn(cands, electionId, firstName, lastName, position, newId).Created?
    ensures var first := WriteIn(cands, electionId, firstName, lastName, position, newId);
      WriteIn(AfterWriteIn(cands, first), electionId, firstName, lastName, position, newId2) == Existing(first.candidate)
  {
    var first := WriteIn(cands, electionId, firstName, lastName, position, newId);
    var name := Trim(firstName) + " " + Trim(lastName);
    FindAppended(cands, first.candidate, electionId, name, position);
  }

  /** Searching after an append with no earlier match finds the appended record, when it matches. */
  lemma {:induction false} FindAppended(cands: seq<Candidate>, c: Candidate, electionId: string, name: string, position: string)
    requires FindByNameIgnoringCase(cands, electionId, name, position).None?
    requires NameMatch(c, electionId, name, position)
    ensures FindByNameIgnoringCase(cands + [c], electionId, name, position) == Some(|cands|)
  {
    if cands == [] {
      assert cands + [c] == [c];
    } else {
      assert (cands + [c])[0] == cands[0];
      assert (cands + [c])[1..] == cands[1..] + [c];
      FindAppended(cands[1..], c, electionId, name, position);
    }
  }

  /**
   * The candidate schema declares no writeIn path, and a strict schema
   * drops undeclared fields on create: as written, the flag never reaches
   * the stored document.
   */
  function StoredAsWritten(c: Candidate): (s: Candidate)
    ensures !s.writeIn && s.id == c.id && s.name == c.name && s.position == c.position
  {
    c.(writeIn := false)
  }

  /**
   * As written, two write-ins created through createWriteInCandidate (each
   * built with writeIn true) can both be ranked once stored: the write-in
   * limit of isValidBallot never fires.
   */
  lemma TwoWriteInsAcceptedAsWritten(c1: Candidate, c2: Candidate)
    requires c1.writeIn && c2.writeIn
    requires IsObjectId(c1.id) && IsObjectId(c2.id) && c1.id != c2.id && c1.position == c2.position
    ensures IsValidBallot(VoteRequest(c1.position, [c1.id, c2.id]), [StoredAsWritten(c1), StoredAsWritten(c2)])
  {
    var cands := [StoredAsWritten(c1), StoredAsWritten(c2)];
    var v := VoteRequest(c1.position, [c1.id, c2.id]);
    IsValidBallotMeaning(v, cands);
    assert IsCandidateAt(cands, c1.id, c1.position) && IsCandidateAt(cands, c2.id, c1.position) by {
      assert cands[0].id == c1.id && cands[1].id == c2.id;
    }
    assert (set id | id in v.ranking && IsWriteInAt(cands, id, c1.position)) == {};
  }

  /**
   * With the flag stored, a ranking that holds two different write-in
   * candidates of the position is always rejected.
   */
  lemma TwoWriteInsRejected(v: VoteRequest, cands: seq<Candidate>, i: nat, j: nat)
    requires UniqueIds(cands)
    requires i < |v.ranking| && j < |v.ranking| && v.ranking[i] != v.ranking[j]
    requires IsWriteInAt(cands, v.ranking[i], v.position) && IsWriteInAt(cands, v.ranking[j], v.position)
    ensures !IsValidBallot(v, cands)
  {
    var ws := set id | id in v.ranking && IsWriteInAt(cands, id, v.position);
    TwoMembers(ws, v.ranking[i], v.ranking[j]);
    IsValidBallotMeaning(v, cands);
  }

  lemma TwoMembers(ws: set<string>, x: string, y: string)
    requires x in ws && y in ws && x != y
    ensures |ws| > 1
  {
    SubsetSize({x, y}, ws);
  }

  /** A created write-in carries the id the database assigns. */
  lemma CreatedHasNewId(cands: seq<Candidate>, electionId: string, firstName: string, lastName: string,
                        position: string, newId: string)
    requires WriteIn(cands, electionId, firstName, lastName, position, newId).Created?
    ensures WriteIn(cands, electionId, firstName, lastName, position, newId).candidate.id == newId
  {
  }

  /** Appending a candidate with a fresh id keeps the ids unique. */
  lemma AppendKeepsUniqueIds(cands: seq<Candidate>, c: Candidate)
    requires UniqueIds(cands) && forall k :: 0 <= k < |cands| ==> cands[k].id != c.id
    ensures UniqueIds(cands + [c])
  {
    var t := cands + [c];
    forall i, j | 0 <= i < j < |t| ensures t[i].id != t[j].id {
      assert t[i] == cands[i];
      if j < |cands| {
        assert t[j] == cands[j];
      }
    }
  }

  /** createWriteInCandidate against the store. */
  method CreateWriteInCandidate(db: Database, electionId: string, firstName: string, lastName: string,
                                position: string, newId: string) returns (r: WriteInResult)
    requires db.Valid()
    requires forall k :: 0 <= k < |db.candidates| ==> db.candidates[k].id != newId
    modifies db
    ensures r == WriteIn(old(db.candidates), electionId, firstName, lastName, position, newId)
    ensures db.candidates == AfterWriteIn(old(db.candidates), r)
    ensures db.elections == old(db.elections) && db.ballotInfos == old(db.ballotInfos) && db.votes == old(db.votes)
    ensures db.Valid()
  {
    r := WriteIn(db.candidates, electionId, firstName, lastName, position, newId);
    if r.Created? {
      CreatedHasNewId(db.candidates, electionId, firstName, lastName, position, newId);
      AppendKeepsUniqueIds(db.candidates, r.candidate);
      db.candidates := db.candidates + [r.candidate];
    }
  }

  // =====================================================================
  // Recording votes
  // =====================================================================

  /** RecordFailed is the 500 the catch answers when the conditional update cannot cast the election id. */
  datatype RecordStatus = NoVotes | RepeatedPosition | InvalidVote(position: string) | RecordFailed | UnableToSubmit | Recorded

  function RecordStatusCode(s: RecordStatus): int {
    if s.Recorded? then 200 else if s.RecordFailed? then 500 else 400
  }

  function Positions(reqs: seq<VoteRequest>): (r: seq<string>)
    ensures |r| == |reqs| && forall k :: 0 <= k < |reqs| ==> r[k] == reqs[k].position
  {
    if reqs == [] then [] else [reqs[0].position] + Positions(reqs[1..])
  }

  /** Index of the first request isValidBallot rejects. */
  function FirstInvalid(reqs: seq<VoteRequest>, cands: seq<Candidate>): (r: Option<nat>)
    ensures r.Some? ==>
      && r.value < |reqs| && !IsValidBallot(reqs[r.value], cands)
      && forall k :: 0 <= k < r.value ==> IsValidBallot(reqs[k], cands)
    ensures r.None? <==> forall k :: 0 <= k < |reqs| ==> IsValidBallot(reqs[k], cands)
  {
    if reqs == [] then None
    else if !IsValidBallot(reqs[0], cands) then Some(0)
    else match FirstInvalid(reqs[1..], cands)
      case None => None
      case Some(k) => Some(k + 1)
  }

  /** The record the conditional update matches: (election, email) with hasVoted still false. */
  function OpenBallot(infos: seq<StudentBallotInfo>, electionId: string, email: string): (r: Option<nat>)
    ensures r.Some? ==>
      && r.value < |infos| && infos[r.value].electionId == electionId
      && infos[r.value].email == email && !infos[r.value].hasVoted
    ensures r.None? ==> forall k :: 0 <= k < |infos| ==>
      !(infos[k].electionId == electionId && infos[k].email == email && !infos[k].hasVoted)
  {
    if infos == [] then None
    else if infos[0].electionId == electionId && infos[0].email == email && !infos[0].hasVoted then Some(0)
    else match OpenBallot(infos[1..], electionId, email)
      case None => None
      case Some(k) => Some(k + 1)
  }

  /** The vote documents inserted for the requests, in request order, each with `votes` 0. */
  function VoteDocs(electionId: string, reqs: seq<VoteRequest>): (r: seq<Vote>)
    ensures |r| == |reqs|
    ensures forall k :: 0 <= k < |reqs| ==> r[k] == Vote(electionId, reqs[k].position, reqs[k].ranking, 0)
  {
    if reqs == [] then [] else [Vote(electionId, reqs[0].position, reqs[0].ranking, 0)] + VoteDocs(electionId, reqs[1..])
  }

  datatype RecordResult = RecordResult(status: RecordStatus, infos: seq<StudentBallotInfo>, votes: seq<Vote>)

  /** recordVotes on the tables; the flip of hasVoted and the insert form one atomic step. */
  function Record(cands: seq<Candidate>, infos: seq<StudentBallotInfo>, votes: seq<Vote>,
                  electionId: string, email: string, reqs: seq<VoteRequest>): RecordResult
  {
    if |reqs| == 0 then RecordResult(NoVotes, infos, votes)
    else if |RankSet(Positions(reqs))| != |reqs| then RecordResult(RepeatedPosition, infos, votes)
    else match FirstInvalid(reqs, cands)
      case Some(k) => RecordResult(InvalidVote(reqs[k].position), infos, votes)
      case None =>
        if !IsObjectId(electionId) then RecordResult(RecordFailed, infos, votes)
        else match OpenBallot(infos, electionId, email)
          case None => RecordResult(UnableToSubmit, infos, votes)
          case Some(k) =>
            RecordResult(Recorded, infos[k := infos[k].(hasVoted := true)], votes + VoteDocs(electionId, reqs))
  }

  /**
   * Votes are recorded iff the request is non-empty, names each position
   * once, every ballot is valid and the student has an unused ballot-info
   * record; then exactly that record's flag flips and the vote documents
   * are appended. Any other outcome changes nothing.
   */
  lemma RecordOutcome(cands: seq<Candidate>, infos: seq<StudentBallotInfo>, votes: seq<Vote>,
                      electionId: string, email: string, reqs: seq<VoteRequest>)
    ensures var r := Record(cands, infos, votes, electionId, email, reqs);
      && (r.status.Recorded? <==>
            && |reqs| > 0
            && NoDup(Positions(reqs))
            && (forall k :: 0 <= k < |reqs| ==> IsValidBallot(reqs[k], cands))
            && IsObjectId(electionId)
            && exists k :: 0 <= k < |infos| && infos[k].electionId == electionId && infos[k].email == email && !infos[k].hasVoted)
      && (!r.status.Recorded? ==> r.infos == infos && r.votes == votes)
      && (r.status.Recorded? ==>
            && r.votes == votes + VoteDocs(electionId, reqs)
            && |r.infos| == |infos|
            && exists k :: 0 <= k < |infos| && !infos[k].hasVoted && r.infos == infos[k := infos[k].(hasVoted := true)])
  {
    RankSetSize(Positions(reqs));
    var r := Record(cands, infos, votes, electionId, email, reqs);
    var open := exists k :: 0 <= k < |infos| && infos[k].electionId == electionId && infos[k].email == email && !infos[k].hasVoted;
    if |reqs| == 0 || !NoDup(Positions(reqs)) || FirstInvalid(reqs, cands).Some? || !IsObjectId(electionId) {
      assert r.infos == infos && r.votes == votes && !r.status.Recorded?;
    } else if OpenBallot(infos, electionId, email).None? {
      assert !open;
      assert r.infos == infos && r.votes == votes && !r.status.Recorded?;
    } else {
      var k := OpenBallot(infos, electionId, email).value;
      assert r.status.Recorded? && r.infos == infos[k := infos[k].(hasVoted := true)];
      assert open;
    }
  }

  /** No ballot-info record loses its flag, and the set of records per (election, email) is unchanged. */
  lemma RecordKeepsInfos(cands: seq<Candidate>, infos: seq<StudentBallotInfo>, votes: seq<Vote>,
                         electionId: string, email: string, reqs: seq<VoteRequest>)
    ensures var r := Record(cands, infos, votes, electionId, email, reqs);
      && |r.infos| == |infos|
      && (forall k :: 0 <= k < |infos| ==>
            r.infos[k].electionId == infos[k].electionId && r.infos[k].email == infos[k].email
            && r.infos[k].campusRep == infos[k].campusRep && r.infos[k].year == infos[k].year
            && (infos[k].hasVoted ==> r.infos[k].hasVoted))
      && (UniqueBallotInfo(infos) ==> UniqueBallotInfo(r.infos))
  {
    var r := Record(cands, infos, votes, electionId, email, reqs);
    if r.status.Recorded? {
      var k := OpenBallot(infos, electionId, email).value;
      assert r.infos == infos[k := infos[k].(hasVoted := true)];
      FlipKeepsInfos(infos, k);
    } else {
      assert r.infos == infos;
    }
  }

  /** Flipping one record's flag keeps every record's identity and every flag already set. */
  lemma FlipKeepsInfos(infos: seq<StudentBallotInfo>, k: nat)
    requires k < |infos|
    ensures var flipped := infos[k := infos[k].(hasVoted := true)];
      && |flipped| == |infos|
      && (forall j :: 0 <= j < |infos| ==>
            flipped[j].electionId == infos[j].electionId && flipped[j].email == infos[j].email
            && flipped[j].campusRep == infos[j].campusRep && flipped[j].year == infos[j].year
            && (infos[j].hasVoted ==> flipped[j].hasVoted))
      && (UniqueBallotInfo(infos) ==> UniqueBallotInfo(flipped))
  {
  }

  /** A student without a ballot-info record for the election can never record a vote. */
  lemma UnregisteredCannotVote(cands: seq<Candidate>, infos: seq<StudentBallotInfo>, votes: seq<Vote>,
                               electionId: string, email: string, reqs: seq<VoteRequest>)
    requires forall k :: 0 <= k < |infos| ==> !(infos[k].electionId == electionId && infos[k].email == email)
    ensures var r := Record(cands, infos, votes, electionId, email, reqs);
      && !r.status.Recorded? && r.infos == infos && r.votes == votes
      && (IsObjectId(electionId) ==> RecordStatusCode(r.status) == 400)
      && (r.status.RecordFailed? <==> !IsObjectId(electionId) && |reqs| > 0 && NoDup(Positions(reqs))
                                      && forall k :: 0 <= k < |reqs| ==> IsValidBallot(reqs[k], cands))
  {
    RankSetSize(Positions(reqs));
    assert OpenBallot(infos, electionId, email).None?;
  }

  /**
   * One vote per student: once a submission is recorded, every later
   * submission for the same election and email fails and inserts nothing.
   */
  lemma VoteAtMostOnce(cands: seq<Candidate>, infos: seq<StudentBallotInfo>, votes: seq<Vote>,
                       electionId: string, email: string, reqs: seq<VoteRequest>, reqs2: seq<VoteRequest>)
    requires UniqueBallotInfo(infos)
    requires Record(cands, infos, votes, electionId, email, reqs).status.Recorded?
    ensures var r := Record(cands, infos, votes, electionId, email, reqs);
      var r2 := Record(cands, r.infos, r.votes, electionId, email, reqs2);
      && !r2.status.Recorded?
      && r2.infos == r.infos && r2.votes == r.votes
  {
    var r := Record(cands, infos, votes, electionId, email, reqs);
    var k := OpenBallot(infos, electionId, email).value;
    assert r.infos == infos[k := infos[k].(hasVoted := true)];
    forall j | 0 <= j < |r.infos|
      ensures !(r.infos[j].electionId == electionId && r.infos[j].email == email && !r.infos[j].hasVoted)
    {
      if j != k {
        assert r.infos[j] == infos[j];
      }
    }
  }

  // =====================================================================
  // The vote index as written
  // =====================================================================

  /** Some new vote document collides on the vote index with a stored one. */
  predicate IndexClash(votes: seq<Vote>, docs: seq<Vote>) {
    exists i, j :: 0 <= i < |votes| && 0 <= j < |docs| && VotesCollide(votes[i], docs[j])
  }

  /** The documents of one accepted submission never collide with each other: they name distinct positions. */
  lemma DocsNeverCollide(electionId: string, reqs: seq<VoteRequest>)
    requires NoDup(Positions(reqs))
    ensures forall i, j :: 0 <= i < j < |reqs| ==> !VotesCollide(VoteDocs(electionId, reqs)[i], VoteDocs(electionId, reqs)[j])
  {
  }

  /**
   * recordVotes with the unique vote index as declared: when a new vote
   * document collides with a stored one, `insertMany` fails with a
   * duplicate key, the transaction is aborted, the flip of hasVoted with
   * it, and the catch answers 500.
   */
  function RecordAsWritten(cands: seq<Candidate>, infos: seq<StudentBallotInfo>, votes: seq<Vote>,
                           electionId: string, email: string, reqs: seq<VoteRequest>): RecordResult
  {
    var r := Record(cands, infos, votes, electionId, email, reqs);
    if r.status.Recorded? && IndexClash(votes, VoteDocs(electionId, reqs)) then RecordResult(RecordFailed, infos, votes)
    else r
  }

  /**
   * As written, a submission is recorded iff the voting rules record it and
   * none of its documents collides with a stored vote; a collision gives
   * 500 and changes nothing.
   */
  lemma RecordAsWrittenOutcome(cands: seq<Candidate>, infos: seq<StudentBallotInfo>, votes: seq<Vote>,
                               electionId: string, email: string, reqs: seq<VoteRequest>)
    ensures var w := RecordAsWritten(cands, infos, votes, electionId, email, reqs);
      var r := Record(cands, infos, votes, electionId, email, reqs);
      && (w.status.Recorded? <==> r.status.Recorded? && !IndexClash(votes, VoteDocs(electionId, reqs)))
      && (r.status.Recorded? && IndexClash(votes, VoteDocs(electionId, reqs)) ==> w.status.RecordFailed?)
      && (w.status.Recorded? ==> w == r)
      && (!w.status.Recorded? ==> w.infos == infos && w.votes == votes)
  {
    RecordOutcome(cands, infos, votes, electionId, email, reqs);
  }

  /**
   * Two students send the same ballot. As written the second submission
   * collides with the first one's documents on the vote index, fails with
   * 500 and changes nothing, where the voting rules record it.
   */
  lemma SameBallotFailsAsWritten(cands: seq<Candidate>, infos: seq<StudentBallotInfo>, electionId: string,
                                 a: string, b: string, reqs: seq<VoteRequest>, kb: nat)
    requires a != b
    requires kb < |infos| && infos[kb].electionId == electionId && infos[kb].email == b && !infos[kb].hasVoted
    requires Record(cands, infos, [], electionId, a, reqs).status.Recorded?
    ensures var first := RecordAsWritten(cands, infos, [], electionId, a, reqs);
      var second := RecordAsWritten(cands, first.infos, first.votes, electionId, b, reqs);
      && first.status.Recorded?
      && Record(cands, first.infos, first.votes, electionId, b, reqs).status.Recorded?
      && second.status.RecordFailed? && second.infos == first.infos && second.votes == first.votes
  {
    RecordOutcome(cands, infos, [], electionId, a, reqs);
    var first := Record(cands, infos, [], electionId, a, reqs);
    assert RecordAsWritten(cands, infos, [], electionId, a, reqs) == first;
    var k := OpenBallot(infos, electionId, a).value;
    assert first.infos == infos[k := infos[k].(hasVoted := true)];
    assert first.infos[kb] == infos[kb];
    RecordOutcome(cands, first.infos, first.votes, electionId, b, reqs);
    var docs := VoteDocs(electionId, reqs);
    assert first.votes == docs;
    assert IsValidBallot(reqs[0], cands);
    var id := reqs[0].ranking[0];
    assert id in docs[0].ranking;
    assert VotesCollide(first.votes[0], docs[0]);
    assert IndexClash(first.votes, docs);
  }

  /** The loop of recordVotes that checks each ballot in turn and stops at the first invalid one. */
  method CheckBallots(reqs: seq<VoteRequest>, cands: seq<Candidate>) returns (bad: Option<nat>)
    ensures bad == FirstInvalid(reqs, cands)
  {
    for i := 0 to |reqs|
      invariant forall k :: 0 <= k < i ==> IsValidBallot(reqs[k], cands)
    {
      if !IsValidBallot(reqs[i], cands) {
        return Some(i);
      }
    }
    return None;
  }

  /** recordVotes: validate everything first, then flip the flag and insert in one step. */
  method RecordVotes(db: Database, electionId: string, email: string, reqs: seq<VoteRequest>)
    returns (status: RecordStatus)
    requires db.Valid()
    modifies db
    ensures var r := Record(old(db.candidates), old(db.ballotInfos), old(db.votes), electionId, email, reqs);
      status == r.status && db.ballotInfos == r.infos && db.votes == r.votes
    ensures db.elections == old(db.elections) && db.candidates == old(db.candidates)
    ensures db.Valid()
  {
    if |reqs| == 0 {
      return NoVotes;
    }
    if |RankSet(Positions(reqs))| != |reqs| {
      return RepeatedPosition;
    }
    var bad := CheckBallots(reqs, db.candidates);
    if bad.Some? {
      return InvalidVote(reqs[bad.value].position);
    }
    if !IsObjectId(electionId) {
      return RecordFailed;
    }
    var infos := db.ballotInfos;
    var found := OpenBallot(infos, electionId, email);
    if found.None? {
      return UnableToSubmit;
    }
    var k := found.value;
    FlipKeepsInfos(infos, k);
    db.ballotInfos := infos[k := infos[k].(hasVoted := true)];
    db.votes := db.votes + VoteDocs(electionId, reqs);
    status := Recorded;
  }
}
