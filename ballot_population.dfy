/**
 * The seeding script for per-student ballot information: one record per
 * listed email, campus representative and class year assigned round-robin
 * by position in the list.
 */
module BallotPopulation {
  import opened VotingModel

  datatype PopulateResult = MissingElectionId | NoEmails | Records(docs: seq<StudentBallotInfo>)

  const CampusReps: seq<string> := ["north", "south"]
  const Years: seq<int> := [1, 2, 3, 4]

  /** The record built for the i-th email. */
  function RecordAt(electionId: string, email: string, i: nat): StudentBallotInfo {
    StudentBallotInfo(electionId, email, CampusReps[i % |CampusReps|], Years[i % |Years|], false)
  }

  /** Both guards come first; otherwise the emails are mapped by index. */
  function Populate(electionId: string, emails: seq<string>): (r: PopulateResult)
    ensures r.MissingElectionId? <==> electionId == ""
    ensures r.NoEmails? <==> electionId != "" && emails == []
    ensures r.Records? ==> |r.docs| == |emails|
  {
    if electionId == "" then MissingElectionId
    else if |emails| == 0 then NoEmails
    else Records(seq(|emails|, i requires 0 <= i < |emails| => RecordAt(electionId, emails[i], i)))
  }

  /**
   * One record per email, in input order: the election and email are
   * copied, the campus alternates north/south, the year cycles 1..4 and
   * nobody has voted yet.
   */
  lemma PopulateRecords(electionId: string, emails: seq<string>)
    requires electionId != "" && emails != []
    ensures Populate(electionId, emails).Records?
    ensures var docs := Populate(electionId, emails).docs;
      forall i :: 0 <= i < |docs| ==>
        && docs[i].electionId == electionId
        && docs[i].email == emails[i]
        && docs[i].campusRep == (if i % 2 == 0 then "north" else "south")
        && docs[i].year == i % 4 + 1
        && 1 <= docs[i].year <= 4
        && !docs[i].hasVoted
  {
    var docs := Populate(electionId, emails).docs;
    forall i | 0 <= i < |docs|
      ensures docs[i].campusRep == (if i % 2 == 0 then "north" else "south")
      ensures docs[i].year == i % 4 + 1
    {
      assert docs[i] == RecordAt(electionId, emails[i], i);
      var y := i % 4;
      assert y == 0 || y == 1 || y == 2 || y == 3;
    }
  }

  /** Consecutive records alternate campus, and records four apart share a year. */
  lemma PopulateCycles(electionId: string, emails: seq<string>, i: nat)
    requires electionId != "" && i + 1 < |emails|
    ensures var docs := Populate(electionId, emails).docs;
      docs[i].campusRep != docs[i + 1].campusRep
      && (i + 4 < |emails| ==> docs[i].year == docs[i + 4].year)
  {
    PopulateRecords(electionId, emails);
  }

  /** Distinct emails give records that satisfy the (electionId, email) unique index. */
  lemma PopulateUnique(electionId: string, emails: seq<string>)
    requires electionId != ""
    requires forall i, j :: 0 <= i < j < |emails| ==> emails[i] != emails[j]
    ensures Populate(electionId, emails).Records? ==> UniqueBallotInfo(Populate(electionId, emails).docs)
  {
    if emails != [] {
      PopulateRecords(electionId, emails);
    }
  }
}
