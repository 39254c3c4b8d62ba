/**
 * The election records as the voting code stores them: elections,
 * candidates, per-student ballot information and submitted votes, plus
 * the position names shared by the back end. Ids are the hex strings of
 * database object ids; dates are instants in milliseconds.
 */
module VotingModel {

  datatype Election = Election(
    id: string,
    name: string,
    description: string,
    startDate: int,
    endDate: int,
    isActive: bool)

  datatype Candidate = Candidate(
    id: string,
    electionId: string,
    name: string,
    position: string,
    writeIn: bool)

  datatype StudentBallotInfo = StudentBallotInfo(
    electionId: string,
    email: string,
    campusRep: string,
    year: int,
    hasVoted: bool)

  datatype Vote = Vote(
    electionId: string,
    position: string,
    ranking: seq<string>,
    votes: int)

  /**
   * The unique index on (electionId, position, ranking) of the vote
   * collection. `ranking` is an array, so the index is multikey: it holds
   * one key per ranked id, and two vote documents collide when they share
   * the election, the position and some ranked id.
   */
  predicate VotesCollide(a: Vote, b: Vote) {
    a.electionId == b.electionId && a.position == b.position && exists id :: id in a.ranking && id in b.ranking
  }

  /** At most one ballot-info record per (election, email). */
  predicate UniqueBallotInfo(infos: seq<StudentBallotInfo>) {
    forall i, j :: 0 <= i < j < |infos| ==>
      !(infos[i].electionId == infos[j].electionId && infos[i].email == infos[j].email)
  }

  // Position names stored on candidates.
  const President := "president"
  const VpFinance := "vp_finance"
  const VpStudentAffairs := "vp_student_affairs"
  const VpAcademicAffairs := "vp_academic_affairs"
  const CommissionerAthletics := "commissioner_athletics"
  const CommissionerCampusEvents := "commissioner_campus_events"
  const CommissionerEquityInclusion := "commissioner_equity_inclusion"
  const CommissionerFacilitiesEnvironment := "commissioner_facilities_environment"
  const CommissionerWelfare := "commissioner_welfare"
  const SeniorClassPresident := "senior_class_president"
  const JuniorClassPresident := "junior_class_president"
  const SophomoreClassPresident := "sophomore_class_president"
  const FirstYearClassPresident := "first_year_class_president"
  const NorthCampusRepresentative := "north_campus_representative"
  const SouthCampusRepresentative := "south_campus_representative"
  const TrusteeRepresentativeFinance := "trustee_representative_finance"
  const TrusteeRepresentativeStudentAffairs := "trustee_representative_student_affairs"
  const TrusteeRepresentativeEducationalQuality := "trustee_representative_educational_quality"
  const CommencementSpeaker := "commencement_speaker"
  const ClassName := "class_name"

  /** Candidate ids (database object ids) are unique in the table. */
  predicate UniqueIds(cands: seq<Candidate>) {
    forall i, j :: 0 <= i < j < |cands| ==> cands[i].id != cands[j].id
  }

  predicate UniqueElectionIds(elections: seq<Election>) {
    forall i, j :: 0 <= i < j < |elections| ==> elections[i].id != elections[j].id
  }

  /** A sub-list of the tail of a table with distinct ids keeps them distinct after the head. */
  lemma UniqueIdsCons(cands: seq<Candidate>, rest: seq<Candidate>)
    requires cands != []
    requires forall k :: 0 <= k < |rest| ==> rest[k] in cands[1..]
    requires UniqueIds(cands) ==> UniqueIds(rest)
    ensures UniqueIds(cands) ==> UniqueIds([cands[0]] + rest)
  {
    if UniqueIds(cands) {
      var r := [cands[0]] + rest;
      forall i, j | 0 <= i < j < |r| ensures r[i].id != r[j].id {
        if i == 0 {
          var m :| 0 <= m < |cands[1..]| && cands[1..][m] == rest[j - 1];
          assert cands[m + 1] == r[j];
        } else {
          assert r[i] == rest[i - 1] && r[j] == rest[j - 1];
        }
      }
    }
  }

  /** A sub-list of the tail of an election table with distinct ids keeps them distinct after the head. */
  lemma UniqueElectionIdsCons(elections: seq<Election>, rest: seq<Election>)
    requires elections != []
    requires forall k :: 0 <= k < |rest| ==> rest[k] in elections[1..]
    requires UniqueElectionIds(elections) ==> UniqueElectionIds(rest)
    ensures UniqueElectionIds(elections) ==> UniqueElectionIds([elections[0]] + rest)
  {
    if UniqueElectionIds(elections) {
      var r := [elections[0]] + rest;
      forall i, j | 0 <= i < j < |r| ensures r[i].id != r[j].id {
        if i == 0 {
          var m :| 0 <= m < |elections[1..]| && elections[1..][m] == rest[j - 1];
          assert elections[m + 1] == r[j];
        } else {
          assert r[i] == rest[i - 1] && r[j] == rest[j - 1];
        }
      }
    }
  }

  /** A sub-list of the tail of a ballot-info table keeps (election, email) unique after the head. */
  lemma UniqueBallotInfoCons(infos: seq<StudentBallotInfo>, rest: seq<StudentBallotInfo>)
    requires infos != []
    requires forall k :: 0 <= k < |rest| ==> rest[k] in infos[1..]
    requires UniqueBallotInfo(infos) ==> UniqueBallotInfo(rest)
    ensures UniqueBallotInfo(infos) ==> UniqueBallotInfo([infos[0]] + rest)
  {
    if UniqueBallotInfo(infos) {
      var r := [infos[0]] + rest;
      forall i, j | 0 <= i < j < |r| ensures !(r[i].electionId == r[j].electionId && r[i].email == r[j].email) {
        if i == 0 {
          var m :| 0 <= m < |infos[1..]| && infos[1..][m] == rest[j - 1];
          assert infos[m + 1] == r[j];
        } else {
          assert r[i] == rest[i - 1] && r[j] == rest[j - 1];
        }
      }
    }
  }

  /**
   * The election collections held in memory: one table per model. Each
   * table keeps documents in insertion order, which is the order an
   * unsorted query returns them in.
   */
  class Database {
    var elections: seq<Election>
    var candidates: seq<Candidate>
    var ballotInfos: seq<StudentBallotInfo>
    var votes: seq<Vote>

    /**
     * The unique indexes the model keeps: object ids, and (electionId,
     * email) on ballot info. The vote index (VotesCollide) is not part of
     * it: the model records votes as the voting rules intend, and what the
     * index does to them is Voting.RecordAsWritten.
     */
    predicate Valid()
      reads this
    {
      UniqueElectionIds(elections) && UniqueIds(candidates) && UniqueBallotInfo(ballotInfos)
    }

    constructor ()
      ensures Valid()
      ensures elections == [] && candidates == [] && ballotInfos == [] && votes == []
    {
      elections := [];
      candidates := [];
      ballotInfos := [];
      votes := [];
    }
  }
}
