# aspc-website-v2 in Dafny

This project models the rule-bearing core of aspc-website-v2, the website of the Associated Students of Pomona College. The site is an Express/Mongo backend with a Next.js frontend. Every database collection is an in-memory table, and every page component is a class whose fields are its React state. The model proves the rules that sit beneath the database calls and the JSX.

Backend:

- `CountVotes`: ranked-choice tallying. It counts first preferences, runs the instant runoff with its majority threshold, tie rule and elimination, and makes the tally decision.
- `VotingModel`, `Voting`: the election, candidate, ballot-info and vote tables. This covers ballot validation, the one-vote-per-student flip of `hasVoted`, ballot composition by year and campus, and write-in creation.
- `ElectionAdmin`: the admin controller and routes. It validates dates, allows deletion only before voting starts, and cascades a delete.
- `BallotPopulation`: the round-robin ballot-info records.
- `CourseCodes`, `CxIDMappings`: course-code parsing and the CxID maps of sets.
- One module per migration:
  - `UpdateCourses` classifies areas, merges and creates courses, and assigns the next id.
  - `RefactorCourseSlug` normalises slugs and resolves duplicates.
  - `InstructorsMigrate` runs the name-matching pass.
  - `InstructorToCourse` looks up courses by slug.
  - `UpdateReviews` resolves CxIDs with a fallback.
- `Pages`: both generations of the page routes.
- `Forum`: rating admission and comment visibility.
- `AuthMiddleware`, `AuthRoutes`, `FrontendMiddleware`: session and access decisions, and the get-or-create of `/current_user`.
- `EngageEvents`: the event filter and formatting.

Frontend:

- `BallotSection`, `VotePage`, `Countdown`: the ballot-building state, drag reordering, write-ins and the countdown.
- `ElectionsDashboard`, `ForumDashboard`, `EventsDashboard`: the admin dashboards.
- `HomepageEvents`, `OpenForumPage`, `CoursesPage`, `Header`, `HousingPage`, `Rooms`: the list pages and their filters, sorts, grouping and pagination.
- Four review forms, each with its ordered validation, payload and endpoint:
  - `ForumReviewModal`;
  - `CourseReviewForm` (`courses/Review.tsx`);
  - `CourseReview` (`courses/CourseReview.tsx`);
  - `HousingReviewForm` (`housing/Reviews.tsx`).
- `TextFormatting`: review text cleanup.

`Util` holds the shared string, sequence and sorting helpers. Loops in the source are methods with invariants, proved against the pure functions that specify them.

## Model

| member | source | states |
|---|---|---|
| CountVotes.FirstChoices | backend/src/scripts/countVotes.ts:52-54 | one first choice per ballot at most |
| CountVotes.FirstChoicesLength | backend/src/scripts/countVotes.ts:52-57 | exactly the non-empty ballots contribute a first choice |
| CountVotes.Entries | backend/src/scripts/countVotes.ts:59-64 | one row per counted id with its name, "(unknown)" when unnamed, and its number of first choices |
| CountVotes.EntriesSum | backend/src/scripts/countVotes.ts:59-64 | the rows' counts add up to the occurrences of their ids among the first choices |
| CountVotes.FirstPreferenceTotal | backend/src/scripts/countVotes.ts:51-65 | the first-preference counts sum to the number of non-empty ballots |
| CountVotes.FirstPreferenceRows | backend/src/scripts/countVotes.ts:51-65 | every row credits a candidate with exactly the ballots ranking it first (at least one), and every first choice has a row |
| CountVotes.AddFirstChoice | backend/src/scripts/countVotes.ts:55-56 | one `counts.set` keeps the map's counts and first-appearance key order equal to those of the ballots seen |
| CountVotes.CountVoteAt | backend/src/scripts/countVotes.ts:53-57 | one vote takes the map and its key order from the counts of the ballots before it to the counts including it; an empty ranking changes nothing |
| CountVotes.CountFirstChoices | backend/src/scripts/countVotes.ts:51-58 | the loop's map holds, for each first choice in order of first appearance, its number of ballots |
| CountVotes.CountFirstPreference | backend/src/scripts/countVotes.ts:47-66 | the table of first-preference counts, sorted by non-increasing count, summing to the non-empty ballots |
| CountVotes.FirstActive | backend/src/scripts/countVotes.ts:100 | the highest-ranked still-active candidate of a ballot, none iff no entry is active |
| CountVotes.ActiveChoices | backend/src/scripts/countVotes.ts:99-104 | each ballot counts for at most one active candidate |
| CountVotes.RoundCountsBounded | backend/src/scripts/countVotes.ts:99-106 | a round's counts sum to at most the number of ballots |
| CountVotes.MajorityUnique | backend/src/scripts/countVotes.ts:106-112 | two distinct candidates cannot both reach floor(total/2)+1 in one round |
| CountVotes.Round | backend/src/scripts/countVotes.ts:93-151 | one round of the runoff loop: elect, tie or eliminate an active candidate |
| CountVotes.RoundOrderFacts | backend/src/scripts/countVotes.ts:107-111 | the sorted order holds exactly the active candidates and its head has the highest count |
| CountVotes.RoundElect | backend/src/scripts/countVotes.ts:106-119 | a round elects iff some active candidate reaches floor(total/2)+1 of all ballots, and the winner is such a candidate |
| CountVotes.RoundTie | backend/src/scripts/countVotes.ts:121-141 | a tie is declared iff exactly two candidates remain with equal counts, and it names both |
| CountVotes.RoundEliminate | backend/src/scripts/countVotes.ts:143-151 | the eliminated candidate has the fewest votes, and is the last of those in candidate order |
| CountVotes.NamesOf | backend/src/scripts/countVotes.ts:137-139 | each id becomes its name, or the id itself when unnamed |
| CountVotes.RunoffWinner | backend/src/scripts/countVotes.ts:118-155 | a runoff winner is (the name of) one of the active candidates |
| CountVotes.RunoffTie | backend/src/scripts/countVotes.ts:127-141 | a runoff tie names two distinct active candidates |
| CountVotes.RunoffDecides | backend/src/scripts/countVotes.ts:83-155 | with at least one candidate, none with the empty id, the runoff always yields a winner or a tie |
| CountVotes.AddActiveChoice | backend/src/scripts/countVotes.ts:101-103 | one counted ballot adds one to its candidate's count |
| CountVotes.CountRound | backend/src/scripts/countVotes.ts:93-104 | the round's count map is zero for every active id plus one per ballot counted for it |
| CountVotes.RunInstantRunoff | backend/src/scripts/countVotes.ts:77-156 | the loop computes the runoff result of the recursive definition: empty input gives no result, each round shrinks the active set by one |
| CountVotes.TallyDecision | backend/src/scripts/countVotes.ts:199-221 | the runoff is used exactly when no first-preference count exceeds half the ballots; otherwise the leader wins outright |
| CountVotes.FirstChoiceWinnerAgreesWithRunoff | backend/src/scripts/countVotes.ts:199-212 | when every first choice is a named candidate of the position, a first-preference majority winner is also the runoff winner |
| CountVotes.ActiveChoicesOfFirst | backend/src/scripts/countVotes.ts:99-104 | with all candidates active, the first round counts exactly the first choices |
| CountVotes.NameIndex | backend/src/scripts/countVotes.ts:172-175 | every candidate of the election has an entry in the name map |
| CountVotes.TallyElection | backend/src/scripts/countVotes.ts:181-231 | one tally per distinct position in order of first appearance, each over that position's stored votes |
| VotingModel.Database.constructor | backend/src/models/Voting.ts:112 | an empty store satisfies the unique indexes the model keeps, among them one ballot-info record per (election, email) |
| Voting.ByPosition | backend/src/controllers/VotingController.ts:66-132 | the `find` over position `$in`/`$nin`: exactly the election's candidates whose position is (or is not) listed, in table order |
| Voting.BallotMembership | backend/src/controllers/VotingController.ts:60-170 | a ballot holds exactly the election's candidates on the student's campus seat, class seats and every position not reserved to a group |
| Voting.FirstYearPresidentNeverOnBallot | backend/src/controllers/VotingController.ts:78-132 | no year maps to the first-year class president, and it is excluded from the other positions, so it is never on a ballot |
| Voting.FindInfo | backend/src/controllers/VotingController.ts:143-146 | the ballot-info record of (election, email), whatever its hasVoted flag, none iff absent |
| Voting.GetBallot | backend/src/controllers/VotingController.ts:137-183 | 500 iff the election id does not cast to an object id; else 404 iff the student has no ballot-info record; otherwise the campus, class and other candidates composed for that record |
| Voting.Ranked | backend/src/controllers/VotingController.ts:203-212 | the query result: the candidates whose id is ranked at the position (write-ins only when asked), and all of them |
| Voting.IsValidBallotMeaning | backend/src/controllers/VotingController.ts:185-218 | a ballot is valid iff the ranking is non-empty, all object ids, distinct, each a candidate at the position, at most one a write-in |
| Voting.AllRankedFound | backend/src/controllers/VotingController.ts:203-210 | with distinct ids, the query returns one document per ranked id iff every ranked id is a candidate at the position |
| Voting.RankedWriteIns | backend/src/controllers/VotingController.ts:212 | the write-ins among the returned documents are as many as the ranked write-in ids |
| Voting.RankSetSize | backend/src/controllers/VotingController.ts:197-198 | the set of ranked ids has the ranking's length iff no id repeats |
| Voting.FindByNameIgnoringCase | backend/src/controllers/VotingController.ts:235-239 | the first candidate of the election at the position whose name matches ignoring case, none iff there is none |
| Voting.WriteInOutcome | backend/src/controllers/VotingController.ts:220-267 | 400 iff a trimmed name part or the position is blank; otherwise 500 iff the election id does not cast for the lookup; an existing case-insensitive match is returned; otherwise a write-in named "first last" is created |
| Voting.WriteInIdempotent | backend/src/controllers/VotingController.ts:235-247 | repeating a write-in request returns the record the first one created and creates nothing |
| Voting.FindAppended | backend/src/controllers/VotingController.ts:235-239 | after an append with no earlier match, the search finds the appended record when it matches |
| Voting.StoredAsWritten | backend/src/models/Voting.ts:43-67 | the candidate schema declares no writeIn path, so the stored document's flag is false |
| Voting.TwoWriteInsAcceptedAsWritten | backend/src/controllers/VotingController.ts:212-215 | as written, two stored write-ins at one position pass isValidBallot together |
| Voting.TwoWriteInsRejected | backend/src/controllers/VotingController.ts:212-215 | with the flag stored, a ranking holding two distinct write-ins of the position is rejected |
| Voting.CreateWriteInCandidate | backend/src/controllers/VotingController.ts:220-267 | the store changes exactly as the write-in outcome says (nothing on a 400 or a 500), the other tables are untouched and the indexes still hold |
| Voting.Positions | backend/src/controllers/VotingController.ts:286 | the positions of the requests, in order |
| Voting.FirstInvalid | backend/src/controllers/VotingController.ts:297-305 | the first request isValidBallot rejects, none iff all are valid |
| Voting.OpenBallot | backend/src/controllers/VotingController.ts:312-325 | the record the conditional update matches: (election, email) with hasVoted still false, none iff absent |
| Voting.VoteDocs | backend/src/controllers/VotingController.ts:331-335 | one vote document per request, in order, with the election, position and ranking |
| Voting.RecordOutcome | backend/src/controllers/VotingController.ts:269-361 | votes are recorded iff the request is non-empty, names each position once, every ballot is valid, the election id casts and the student has an unused record; then exactly that record flips and the documents are appended |
| Voting.RecordKeepsInfos | backend/src/controllers/VotingController.ts:312-325 | no record loses its flag or changes identity, and the (election, email) uniqueness is kept |
| Voting.UnregisteredCannotVote | backend/src/controllers/VotingController.ts:312-329 | a student without a ballot-info record never records a vote: 400, or the catch's 500 exactly when the request passes validation with an election id that does not cast |
| Voting.VoteAtMostOnce | backend/src/controllers/VotingController.ts:312-329 | once a submission is recorded, every later one for the same election and email fails and inserts nothing |
| Voting.CheckBallots | backend/src/controllers/VotingController.ts:297-302 | the loop stops at the first ballot isValidBallot rejects, or reports none when every ballot is valid |
| Voting.RecordVotes | backend/src/controllers/VotingController.ts:269-361 | the store afterwards is the recording of the requests as one atomic step under the voting rules, with the unique indexes the model keeps |
| Voting.DocsNeverCollide | backend/src/models/Voting.ts:153 | the vote documents of one accepted submission never collide with each other on the vote index, since their positions are distinct |
| Voting.RecordAsWrittenOutcome | backend/src/controllers/VotingController.ts:309-348 | with the multikey vote index, a submission is recorded iff the voting rules record it and no new document shares the election, position and a ranked id with a stored vote; a collision aborts the transaction, answers 500 and changes nothing |
| Voting.SameBallotFailsAsWritten | backend/src/controllers/VotingController.ts:309-348 | as written, a second student who sends the same ballot as the first gets 500 and nothing is stored, where the voting rules record the vote |
| ElectionAdmin.ElectionRequestError | backend/src/controllers/VotingAdminController.ts:33-43 | no error iff the name and both dates are present and the start is before the end; missing fields are reported before the date order |
| ElectionAdmin.FindElection | backend/src/controllers/VotingAdminController.ts:97-101 | the table index of the election with this id, none iff no election has it |
| ElectionAdmin.ElectionDefaults | backend/src/routes/admin/ElectionsAdminRoutes.ts:55-126 | an omitted isActive is stored false on create by both handlers, reset to false by the route's update, and kept by the controller's update |
| ElectionAdmin.CreateElection | backend/src/controllers/VotingAdminController.ts:29-57 | a bad body gives 400 and changes nothing; otherwise 201 and exactly the new election is appended |
| ElectionAdmin.UpdateElection | backend/src/controllers/VotingAdminController.ts:59-91 | a bad body gives 400 before the lookup, an id that does not cast the catch's 400, an unknown id 404; otherwise only that election is replaced |
| ElectionAdmin.CandidatesNotOf | backend/src/controllers/VotingAdminController.ts:111 | exactly the candidates of other elections remain, ids still unique |
| ElectionAdmin.InfosNotOf | backend/src/controllers/VotingAdminController.ts:112 | exactly the ballot-info records of other elections remain, (election, email) still unique |
| ElectionAdmin.VotesNotOf | backend/src/controllers/VotingAdminController.ts:113 | exactly the votes of other elections remain |
| ElectionAdmin.ElectionsNot | backend/src/controllers/VotingAdminController.ts:115 | exactly the other elections remain, ids still unique |
| ElectionAdmin.DeleteOnlyBeforeStart | backend/src/controllers/VotingAdminController.ts:97-109 | 500 iff the id does not cast; deletion is allowed iff the election exists and now is before its start; a started election is never deleted |
| ElectionAdmin.DeleteElection | backend/src/controllers/VotingAdminController.ts:93-121 | a refused delete changes nothing; an allowed one removes the election's candidates, ballot infos and votes, then the election |
| ElectionAdmin.CascadeLeavesNoOrphans | backend/src/controllers/VotingAdminController.ts:111-115 | after the cascade nothing refers to the election and every record of other elections is still there |
| ElectionAdmin.CandidateLeTotalPreorder | backend/src/controllers/VotingAdminController.ts:133-136 | the (position, name) order is a total preorder, so the sort is well defined |
| ElectionAdmin.CandidatesOf | backend/src/controllers/VotingAdminController.ts:133 | exactly the election's candidates |
| ElectionAdmin.CandidateOrder | backend/src/controllers/VotingAdminController.ts:133-136 | a sorted listing is ordered by position, then by name within a position |
| ElectionAdmin.ListCandidatesSorted | backend/src/controllers/VotingAdminController.ts:123-142 | 500 iff the id does not cast, 404 iff the election is unknown; otherwise a permutation of its candidates ordered by position then name |
| ElectionAdmin.FindCandidate | backend/src/controllers/VotingAdminController.ts:177-181 | the index of the candidate matching both the id and the election, none iff there is none |
| ElectionAdmin.CreateCandidate | backend/src/controllers/VotingAdminController.ts:144-165 | a missing name or position, or an election id that does not cast on save, gives 400 and changes nothing; otherwise the candidate is appended, writeIn unset |
| ElectionAdmin.UpdateCandidate | backend/src/controllers/VotingAdminController.ts:167-192 | only the record matching both ids changes, and only its name and position; 400 (missing fields, or a filter id that does not cast) and 404 change nothing |
| ElectionAdmin.DeleteCandidate | backend/src/controllers/VotingAdminController.ts:194-212 | removes the record matching both ids, else 404, or 500 when a filter id does not cast, and nothing changes |
| ElectionAdmin.DeleteCandidateExact | backend/src/controllers/VotingAdminController.ts:198-201 | the delete removes exactly the one record with that id in that election, and nothing else |
| BallotPopulation.Populate | backend/src/scripts/populateStudentBallotInfo.ts:10-26 | a missing election id is reported first, then an empty email list; otherwise one record per email |
| BallotPopulation.PopulateRecords | backend/src/scripts/populateStudentBallotInfo.ts:17-26 | record i keeps the election and email i, takes campus i mod 2 and year i mod 4 plus one, and has not voted |
| BallotPopulation.PopulateCycles | backend/src/scripts/populateStudentBallotInfo.ts:23-24 | neighbouring records alternate campus, and records four apart share a year |
| BallotPopulation.PopulateUnique | backend/src/models/Voting.ts:112 | distinct emails give records that satisfy the unique (electionId, email) index |
| BallotSection.Ids | frontend/src/components/vote/BallotSection.tsx:60 | the id list has the same length as the candidates and lists their ids in order |
| BallotSection.WithoutId | frontend/src/components/vote/BallotSection.tsx:74 | the kept candidates are exactly those with another id, and the list never grows |
| BallotSection.WithoutUniqueId | frontend/src/components/vote/BallotSection.tsx:74 | filtering out an id that occurs once removes exactly that one candidate |
| BallotSection.FindIndex | frontend/src/components/vote/BallotSection.tsx:92-93 | -1 iff the id is absent; otherwise the first index holding it |
| BallotSection.SpliceStart | frontend/src/components/vote/BallotSection.tsx:96 | the insertion point a splice uses for a start index: a start within the list is kept, and the point never passes the end |
| BallotSection.DragOverPermutes | frontend/src/components/vote/BallotSection.tsx:88-98 | dragging is always a permutation; it does nothing without a dragged id, onto itself or for an unranked id; otherwise the dragged card takes the target's index and the others keep their order |
| BallotSection.WriteIns | frontend/src/components/vote/BallotSection.tsx:152 | exactly the write-in candidates of the list |
| BallotSection.AddWriteInStepFresh | frontend/src/components/vote/BallotSection.tsx:102-149 | a write-in is added iff it is not a preview, both names are non-blank, the lowercased full name is not on the ballot, the reply is a candidate and its id is new; blank names give their message and a preview changes nothing |
| BallotSection.Draw | frontend/src/components/vote/BallotSection.tsx:29 | the i-th random draw is an index in [0, i] |
| BallotSection.ShuffleArray | frontend/src/components/vote/BallotSection.tsx:26-33 | the shuffle returns a fresh array that is a permutation of the candidates, whatever the random numbers |
| BallotSection.Ballot.constructor | frontend/src/components/vote/BallotSection.tsx:43-56 | the section starts with a shuffle of its candidates, all unranked, nothing dragged and the write-in form closed and empty |
| BallotSection.Ballot.AddToRanked | frontend/src/components/vote/BallotSection.tsx:73-76 | the candidate leaves the unranked list for the end of the ranked one; the two lists together keep the same candidates and distinct ids |
| BallotSection.Ballot.RemoveFromRanked | frontend/src/components/vote/BallotSection.tsx:78-81 | the candidate leaves the ranked list for the end of the unranked one; the union and distinct ids are kept |
| BallotSection.Ballot.RemoveWriteIn | frontend/src/components/vote/BallotSection.tsx:83-86 | the candidate leaves both lists and every other candidate stays |
| BallotSection.Ballot.StartDrag | frontend/src/components/vote/BallotSection.tsx:335 | the dragged id is set and nothing else changes |
| BallotSection.Ballot.EndDrag | frontend/src/components/vote/BallotSection.tsx:339 | the dragged id is cleared and nothing else changes |
| BallotSection.Ballot.HandleDragOver | frontend/src/components/vote/BallotSection.tsx:88-98 | only the ranked list changes, to a permutation of itself, following the drag rule |
| BallotSection.Ballot.HandleAddWriteIn | frontend/src/components/vote/BallotSection.tsx:102-149 | the write-in outcome is applied: an added candidate goes to the end of the unranked list and clears the form, a rejection shows its message, and ids stay distinct |
| BallotSection.Ballot.ApplyWriteInStep | frontend/src/components/vote/BallotSection.tsx:130-145 | each outcome of the write-in request updates exactly the state that outcome names |
| BallotSection.Ballot.HandleReset | frontend/src/components/vote/BallotSection.tsx:151-159 | the initial shuffle comes back unranked followed by every write-in, nothing is ranked, and the form is cleared |
| BallotSection.ReportedComplete | frontend/src/components/vote/BallotSection.tsx:58-63 | the reported ranking is complete iff nothing is unranked and something is ranked; a complete ranking lists every candidate exactly once |
| CourseCodes.GenerateTermKeys | backend/src/__tests__/cxid.ts:67-91 | the loop builds exactly the year-by-year term list for the fixed current year |
| CourseCodes.TermsThroughShape | backend/src/__tests__/cxid.ts:75-88 | through year y the keys are the first year's fall, then spring and fall of every later year, 2(y-2002)+1 in all |
| CourseCodes.TermKeysRange | backend/src/__tests__/cxid.ts:64-91 | with November 2025 fixed, the keys run from "2002;FA" to "2025;FA", 47 of them |
| CourseCodes.BeforeHyphen | backend/src/__tests__/cxid.ts:171 | the text before the first hyphen: a prefix of the input holding no hyphen |
| CourseCodes.MatchBaseIsPattern | backend/src/__tests__/cxid.ts:163 | the matcher finds a group exactly when the regular expression matches, and that group is the only possible one |
| CourseCodes.ExtractBaseMeaning | backend/src/__tests__/cxid.ts:157-172 | the base code is the uppercased group when the whitespace-free code matches, else the uppercased text before its first hyphen; it holds no hyphen and no whitespace |
| CourseCodes.LeftmostSchool | backend/src/__tests__/cxid.ts:191 | the leftmost index from which the unanchored school pattern matches, none iff it matches nowhere |
| CourseCodes.SchoolAtUnique | backend/src/__tests__/cxid.ts:191 | the end-anchored school pattern can match at one index at most |
| CourseCodes.ExtractSchoolMeaning | backend/src/__tests__/cxid.ts:182-199 | a code ending in two letters, optionally a hyphen and digits, gives those letters uppercased; otherwise the primary association, or "UNK" when that is empty |
| CourseCodes.DocumentedShape | backend/src/__tests__/cxid.ts:149-156 | a course number, blanks, a two-letter school and a hyphenated section give the number without spaces uppercased and the school uppercased |
| CourseCodes.DocumentedExample | backend/src/__tests__/cxid.ts:226-252 | a number, two blanks, an uppercase school and "-01" give back the number without spaces and the school |
| CourseCodes.ExampleCsci005 | backend/src/__tests__/cxid.ts:227-231 | "CSCI005  HM-01" yields "CSCI005" and "HM" |
| CourseCodes.ExampleMus | backend/src/__tests__/cxid.ts:232-236 | "MUS 130  SC-01" yields "MUS130" and "SC" |
| CourseCodes.ExampleMath | backend/src/__tests__/cxid.ts:237-241 | "MATH 058BL  PO-01" yields "MATH058BL" and "PO" |
| CourseCodes.ExampleHist | backend/src/__tests__/cxid.ts:242-246 | "HIST 100AI  PO-01" yields "HIST100AI" and "PO" |
| CourseCodes.ExampleBiol | backend/src/__tests__/cxid.ts:247-251 | "BIOL 052R  HM-01" yields "BIOL052R" and "HM" |
| CxIDMappings.Entries | backend/src/__tests__/cxid.ts:335-353 | one record per valid instructor entry of a course, in list order, never more than the entries |
| CxIDMappings.AddEntries | backend/src/__tests__/cxid.ts:335-364 | processing a course's instructor list keeps its course key registered |
| CxIDMappings.AddEntriesCounts | backend/src/__tests__/cxid.ts:344-352 | the inner loop pushes exactly the course's valid entries and counts them, leaving the other counters alone |
| CxIDMappings.AddEntriesMeaning | backend/src/__tests__/cxid.ts:354-363 | the inner loop keeps the instructor map and the course map indexing the records |
| CxIDMappings.AddListedTracks | backend/src/__tests__/cxid.ts:326-364 | registering a course key and adding its entries keeps both maps indexing the records |
| CxIDMappings.AggregateCounts | backend/src/__tests__/cxid.ts:299-324 | after the fetch loop the records are the reference records, every fetched course is counted, every record is an instructor, and the courses without instructors are counted |
| CxIDMappings.AggregateTracks | backend/src/__tests__/cxid.ts:329-363 | after the fetch loop both maps index the records, the course map under the keys of the courses with an instructor list |
| CxIDMappings.IndexesMeaning | backend/src/__tests__/cxid.ts:268-269 | an index has unique registered keys, and each key's set holds, once each, exactly that key's values |
| CxIDMappings.MappingsMembers | backend/src/__tests__/cxid.ts:313-352 | the records are exactly the valid entries of the courses with an instructor list, filed under the hyphenated key and the term; none has an empty name or a zero CxID |
| CxIDMappings.CourseKeysMembers | backend/src/__tests__/cxid.ts:326-332 | a course key is registered exactly when some fetched course with that key had an instructor list |
| CxIDMappings.InstructorMapMeaning | backend/src/__tests__/cxid.ts:355-360 | the instructor map's names are unique and are the records' names, and each name's set holds, once each, exactly that name's CxIDs |
| CxIDMappings.CourseMapMeaning | backend/src/__tests__/cxid.ts:329-363 | the course map's keys are unique and are the keys of the courses with an instructor list, and each key's set holds, once each, exactly that key's CxIDs |
| CxIDMappings.AddInstructors | backend/src/__tests__/cxid.ts:335-364 | the inner loop computes the reference processing of one instructor list |
| CxIDMappings.BuildCxIDMappings | backend/src/__tests__/cxid.ts:285-367 | the fetch loop computes the reference aggregation of the fetched courses |
| CxIDMappings.AddFetched | backend/src/__tests__/cxid.ts:305-366 | one fetched course is counted, then skipped when it has no instructors, or registered under its key with its valid instructors, as AddCourse does |
| CxIDMappings.CxIDLeTotalPreorder | backend/src/__tests__/cxid.ts:374 | the default sort's string order on CxIDs is a total preorder |
| CxIDMappings.ToSortedList | backend/src/__tests__/cxid.ts:370-384 | the list built key by key is ListEntries of the map's keys in insertion order |
| CxIDMappings.SortedCxIDs | backend/src/__tests__/cxid.ts:374 | the sorted CxIDs are the set's members, each as often |
| CxIDMappings.SortedCxIDsOrdered | backend/src/__tests__/cxid.ts:374 | the sorted CxIDs are in the default string order of Array.prototype.sort |
| CxIDMappings.SortedListMeaning | backend/src/__tests__/cxid.ts:370-384 | entry i carries the i-th key, the members of that key's set, in string order |
| CxIDMappings.WrittenListDuplicateFree | backend/src/__tests__/cxid.ts:370-384 | every written CxID list is free of duplicates |
| Util.NextId | backend/src/services/updateCourses.ts:224-227 | the next id exceeds every id in the table, and is 1 for an empty table |
| UpdateCourses.ClassifyAreasKeys | backend/src/services/updateCourses.ts:75-85 | every non-empty area code lands in exactly one map: the requirement map when it starts with a digit, the department map otherwise |
| UpdateCourses.ClassifyRequirementValues | backend/src/services/updateCourses.ts:79 | each requirement code holds the description of the last area listed with that code |
| UpdateCourses.ClassifyDepartmentValues | backend/src/services/updateCourses.ts:82 | each department code holds the description of the last area listed with that code |
| UpdateCourses.FetchDepartmentMappings | backend/src/services/updateCourses.ts:55-93 | the forEach over the fetched areas computes the reference classification |
| UpdateCourses.RunOf | backend/src/services/updateCourses.ts:202 | the length of the character run of one class starting at i: every character in it is of the class and the next one is not |
| UpdateCourses.OptionalUpper | backend/src/services/updateCourses.ts:202 | the optional capital letter takes one character iff one is there |
| UpdateCourses.SectionMatchExact | backend/src/services/updateCourses.ts:202 | whenever the regular expression can match, the scan reports the match whose last group takes the whole letter run, as a greedy match does |
| UpdateCourses.SectionMatchNone | backend/src/services/updateCourses.ts:202 | the scan fails exactly when no match exists |
| UpdateCourses.StripSectionNumberCases | backend/src/services/updateCourses.ts:199-215 | a match gives "group1 group2"; otherwise a hyphen after the first character cuts the code at the last hyphen, trimmed; otherwise the code is kept |
| UpdateCourses.SlugHasNoSpace | backend/src/services/updateCourses.ts:218-221 | a slug holds no whitespace |
| UpdateCourses.SlugOfJoined | backend/src/services/updateCourses.ts:218-221 | two space-free parts joined by one space slug to the parts joined by a hyphen |
| UpdateCourses.StrippedCode | backend/src/services/updateCourses.ts:199-221 | a matching code is stored as its two groups joined by a space and slugged with a hyphen between them |
| UpdateCourses.ShapeParts | backend/src/services/updateCourses.ts:202 | letters, digits, whitespace, school letters and a tail not starting with a letter form a match |
| UpdateCourses.ExampleStrip | backend/src/services/updateCourses.ts:201-219 | "CSCI005  HM-01" is stored as "CSCI005 HM" with slug "CSCI005-HM" |
| UpdateCourses.ExtractDepartmentCode | backend/src/services/updateCourses.ts:230-235 | the leading run of capital letters, possibly empty: a prefix of upper-case letters not followed by another |
| UpdateCourses.DepartmentOfStripped | backend/src/services/updateCourses.ts:230-235 | a stripped code keeps its subject prefix as its department code |
| UpdateCourses.NameOr | backend/src/services/updateCourses.ts:306 | the mapped text when it is present and non-empty, else the key itself |
| UpdateCourses.GetDepartmentNames | backend/src/services/updateCourses.ts:238-251 | nothing for an empty code, else the mapped name or the code itself |
| UpdateCourses.MergeCourseMeaning | backend/src/services/updateCourses.ts:287-334 | a merge leaves the course holding the refresh term and the source area, lists only grow, other fields are kept, and the flag says whether anything changed |
| UpdateCourses.MergeCourseIdempotent | backend/src/services/updateCourses.ts:287-334 | merging the same entry twice changes nothing the second time |
| UpdateCourses.NewCourseMeaning | backend/src/services/updateCourses.ts:336-381 | a new course has the next id, the stripped code and its slug, the refresh term, a trimmed name or "Untitled Course", and the areas its source gives |
| UpdateCourses.RequirementCourseDepartment | backend/src/services/updateCourses.ts:347-354 | a course created from a requirement listing is filed under the department its subject prefix names, or the prefix itself |
| UpdateCourses.Codes | backend/src/services/updateCourses.ts:283-285 | the stored codes, one per course in order |
| UpdateCourses.Ids | backend/src/services/updateCourses.ts:225 | the stored ids, one per course in order |
| UpdateCourses.FindCourse | backend/src/services/updateCourses.ts:283-285 | the first stored course with the code, none iff no course has it |
| UpdateCourses.ProcessEntry | backend/src/services/updateCourses.ts:266-390 | one loop body computes the reference step for one entry, a course that fails the schema's required fields included, and reports the stripped code |
| UpdateCourses.UpdateCoursesFromAPI | backend/src/services/updateCourses.ts:254-391 | the loop computes the reference run: final store and the created, updated, skipped and error counters |
| UpdateCourses.StrippedCodes | backend/src/services/updateCourses.ts:269 | the stripped code of every entry, in order |
| UpdateCourses.ApplyEntryShape | backend/src/services/updateCourses.ts:283-390 | one entry never renames or renumbers a stored course and adds one course exactly when it creates one; it fails exactly when its code is new and the course it would create has an empty code, slug or name, and then changes nothing; otherwise its code is stored |
| UpdateCourses.ApplyEntryUnique | backend/src/services/updateCourses.ts:283-381 | a step keeps course codes and ids free of duplicates |
| UpdateCourses.ApplyEntryTwice | backend/src/services/updateCourses.ts:287-390 | applying the same entry again changes nothing and counts it as skipped, or as an error again when it failed |
| UpdateCourses.ApplyAllTally | backend/src/services/updateCourses.ts:258-397 | every entry is counted exactly once as created, updated, skipped or an error; without errors the processed set holds each stripped code once, in order of first appearance |
| UpdateCourses.ApplyAllProcessed | backend/src/services/updateCourses.ts:258-390 | the processed set holds each code once, and exactly the stripped codes of the entries that are stored after the run |
| UpdateCourses.BlankNameFails | backend/src/services/updateCourses.ts:362-390 | a new course whose API name is only white space gets the trimmed name "", fails the required name and is counted as an error, storing nothing |
| UpdateCourses.ApplyAllStore | backend/src/services/updateCourses.ts:254-391 | a refresh keeps codes and ids unique, never renames or renumbers a course, and leaves a course for every processed code, failed saves storing nothing |
| RefactorCourseSlug.CleanCode | backend/src/__tests__/refactor-course-slug.ts:50 | the cleaned code holds no whitespace and no lower-case letter |
| RefactorCourseSlug.NormalizedSlugMeaning | backend/src/__tests__/refactor-course-slug.ts:49-60 | a slug "base-school" exists exactly when the cleaned code is a non-empty base followed by two capital letters |
| RefactorCourseSlug.MembersMeaning | backend/src/__tests__/refactor-course-slug.ts:62-65 | the courses whose slug is k, and all of them |
| RefactorCourseSlug.GroupAllMeaning | backend/src/__tests__/refactor-course-slug.ts:41-66 | one key per distinct slug in order of first appearance, each holding exactly its courses in their original order, the slug-less courses counted as skipped |
| RefactorCourseSlug.GroupBySlug | backend/src/__tests__/refactor-course-slug.ts:41-66 | the first loop computes the reference grouping |
| RefactorCourseSlug.KeepsBeforeTotalPreorder | backend/src/__tests__/refactor-course-slug.ts:137-142 | the comparator (more reviews first, then lower id) is a total preorder |
| RefactorCourseSlug.SortGroup | backend/src/__tests__/refactor-course-slug.ts:137-142 | the sorted group is a permutation of the group, ordered by the comparator |
| RefactorCourseSlug.KeeperIsBest | backend/src/__tests__/refactor-course-slug.ts:137-144 | the first of the sorted group has the most reviews, and the lowest id among those with as many |
| RefactorCourseSlug.DeletesMeaning | backend/src/__tests__/refactor-course-slug.ts:161-166 | the deletions name exactly the given courses' ids, in order |
| RefactorCourseSlug.KeeperAndDuplicates | backend/src/__tests__/refactor-course-slug.ts:144-145 | the kept course and the deleted ones are the group, rearranged |
| RefactorCourseSlug.KeeperMeaning | backend/src/__tests__/refactor-course-slug.ts:144 | the kept course is in the group and beats every other by review count, then by id |
| RefactorCourseSlug.GroupWritesSlug | backend/src/__tests__/refactor-course-slug.ts:112-158 | only the kept course may be re-slugged, and it is exactly when its slug differs |
| RefactorCourseSlug.GroupWritesDeletes | backend/src/__tests__/refactor-course-slug.ts:160-166 | the deletions name the ids of the sorted group after its first course, and those courses with the kept one are the group rearranged: every course but the kept one is deleted, each once |
| RefactorCourseSlug.GroupStatsTotal | backend/src/__tests__/refactor-course-slug.ts:110-175 | the counters grow by the size of the group |
| RefactorCourseSlug.GroupAllCounts | backend/src/__tests__/refactor-course-slug.ts:43-66 | every slugged course goes into exactly one group, no group is empty, and the skipped courses make up the rest |
| RefactorCourseSlug.PlanKeysCounts | backend/src/__tests__/refactor-course-slug.ts:110-175 | the counters grow by all grouped courses, the deletions by all but one per key |
| RefactorCourseSlug.PlanKeysSlugs | backend/src/__tests__/refactor-course-slug.ts:110-158 | every re-slugging gives a key's slug to that key's kept course |
| RefactorCourseSlug.PlanCounts | backend/src/__tests__/refactor-course-slug.ts:186-191 | every course is counted once as updated, skipped or deleted, and the final count is one per distinct slug plus the courses without one |
| RefactorCourseSlug.PlanSlugs | backend/src/__tests__/refactor-course-slug.ts:110-158 | every re-slugging names a slug of the courses and that slug's kept course |
| RefactorCourseSlug.DeleteDuplicates | backend/src/__tests__/refactor-course-slug.ts:161-166 | the loop appends one deletion per duplicate unless it is a dry run, and counts them all |
| RefactorCourseSlug.ProcessGroup | backend/src/__tests__/refactor-course-slug.ts:111-167 | one iteration writes the group's updates unless it is a dry run, and counts as the reference says |
| RefactorCourseSlug.ProcessDuplicates | backend/src/__tests__/refactor-course-slug.ts:136-165 | a group of several courses re-slugs the kept course when its slug differs, deletes the rest unless it is a dry run, and counts as the reference says |
| RefactorCourseSlug.KeepOnePerSlug | backend/src/__tests__/refactor-course-slug.ts:110-174 | the second loop, one iteration per slug key in insertion order, writes the reference plan for the keys, nothing in a dry run, with the same counters either way |
| RefactorCourseSlug.FixCodeSlugFormat | backend/src/__tests__/refactor-course-slug.ts:10-215 | the run writes the reference plan, nothing in a dry run, with the same counters either way |
| RefactorCourseSlug.ExampleMus | backend/src/__tests__/refactor-course-slug.ts:4-8 | "MUS 130 SC", slugged "MUS-130-SC" before, becomes "MUS130-SC" |
| InstructorsMigrate.NormalizeNameShape | backend/src/__tests__/instructors_migrate.ts:34-39 | a normalised name starts with no space, has single plain spaces between words, ends with no space and has no capital letter |
| InstructorsMigrate.NormalizeNameFixed | backend/src/__tests__/instructors_migrate.ts:34-39 | a name already in that shape is its own normal form |
| InstructorsMigrate.NormalizeNameIdempotent | backend/src/__tests__/instructors_migrate.ts:34-39 | normalising twice is normalising once |
| InstructorsMigrate.BuildLookupKeys | backend/src/__tests__/instructors_migrate.ts:84-87 | the lookup's keys are distinct, in insertion order, and exactly the keys of its entries |
| InstructorsMigrate.BuildLookupDomain | backend/src/__tests__/instructors_migrate.ts:84-87 | the lookup has a key exactly for each normalised API name |
| InstructorsMigrate.BuildLookupLast | backend/src/__tests__/instructors_migrate.ts:85-87 | each key holds the last API instructor with that normalised name |
| InstructorsMigrate.MatchAllLookup | backend/src/__tests__/instructors_migrate.ts:114-163 | after the update loop the lookup holds exactly the entries no stored name matched, unchanged |
| InstructorsMigrate.MatchAllOutcome | backend/src/__tests__/instructors_migrate.ts:114-163 | each stored instructor is updated with the CxIDs of its still-unclaimed API entry, or skipped when none is left |
| InstructorsMigrate.SecondSameNameSkipped | backend/src/__tests__/instructors_migrate.ts:155-158 | a second stored instructor with the same normalised name is skipped, since the first removed the entry |
| InstructorsMigrate.CreateAllMeaning | backend/src/__tests__/instructors_migrate.ts:180-213 | the create loop counts every remaining API instructor as created and changes no other counter |
| InstructorsMigrate.MigrationCounts | backend/src/__tests__/instructors_migrate.ts:93-213 | the totals are the two input sizes, every stored instructor is updated or skipped, the skip list matches the skip count, and one write is made per update or creation |
| InstructorsMigrate.SkipsCount | backend/src/__tests__/instructors_migrate.ts:118-128 | the skip list grows exactly with the skip counter |
| InstructorsMigrate.CreatedWrite | backend/src/__tests__/instructors_migrate.ts:182-205 | every created instructor comes from the API data, matches no stored name, has zero reviews, and gets an id above every stored id |
| InstructorsMigrate.UpdatesFirst | backend/src/__tests__/instructors_migrate.ts:114-213 | all update writes come before the create writes |
| InstructorsMigrate.CreateAllAt | backend/src/__tests__/instructors_migrate.ts:182-205 | the i-th created instructor gets id nextId + i and the i-th remaining name and CxIDs |
| InstructorsMigrate.Remaining | backend/src/__tests__/instructors_migrate.ts:172-173 | every instructor left to create is an API instructor whose name no stored instructor has |
| InstructorsMigrate.CreatedIdsIncrease | backend/src/__tests__/instructors_migrate.ts:180-205 | the created ids strictly increase |
| InstructorsMigrate.MatchAllWrites | backend/src/__tests__/instructors_migrate.ts:131-141 | the update loop only appends updates |
| InstructorsMigrate.MigrationSkipList | backend/src/__tests__/instructors_migrate.ts:224-230 | the exported skip list is sorted by review count, descending, and holds only stored instructors, and includes every one whose name has no API entry |
| InstructorsMigrate.MigrateInstructors | backend/src/__tests__/instructors_migrate.ts:57-222 | the migration computes the reference writes, none in a dry run, with the same counters and skip list either way |
| InstructorsMigrate.MatchPass | backend/src/__tests__/instructors_migrate.ts:114-163 | the update loop computes the reference pass |
| InstructorsMigrate.CreatePass | backend/src/__tests__/instructors_migrate.ts:182-213 | the create loop computes the reference pass |
| InstructorToCourse.IsBlankMeaning | backend/src/__tests__/instructor_to_course.ts:99 | a string is blank exactly when every character of it is white space |
| InstructorToCourse.BuildLookupDomain | backend/src/__tests__/instructor_to_course.ts:62-65 | the lookup has a key exactly for each upper-cased, trimmed API course code |
| InstructorToCourse.BuildLookupLast | backend/src/__tests__/instructor_to_course.ts:63-66 | a later API course with the same key overwrites an earlier one |
| InstructorToCourse.RunAllCounts | backend/src/__tests__/instructor_to_course.ts:97-188 | updated counts the matched courses, skipped the others, of which the invalid-code counter counts those with a blank code or slug; one write per update, one skip entry per skip, and the CxID total is the sum of the written lists |
| InstructorToCourse.RunAllShift | backend/src/__tests__/instructor_to_course.ts:72-81 | the counters do not depend on the totals the state starts with |
| InstructorToCourse.MigrationCounts | backend/src/__tests__/instructor_to_course.ts:72-188 | the totals are the input sizes and the counters partition the stored courses |
| InstructorToCourse.ClassifyFound | backend/src/__tests__/instructor_to_course.ts:132-149 | a course with a code and a slug is matched exactly when its slug's key is some API course's key, and gets the last such course's CxIDs |
| InstructorToCourse.RunAllOutcome | backend/src/__tests__/instructor_to_course.ts:97-188 | every matched course is written its CxIDs and every other course is listed as skipped, with the placeholders of the missing-code branch |
| InstructorToCourse.MigrationSkipList | backend/src/__tests__/instructor_to_course.ts:204-210 | the skip list is the skipped courses, most reviewed first |
| InstructorToCourse.MigrateCourses | backend/src/__tests__/instructor_to_course.ts:37-210 | the migration computes the reference writes, none in a dry run, with the same counters, CxID total and skip list either way |
| InstructorToCourse.IndexApiCourses | backend/src/__tests__/instructor_to_course.ts:62-65 | the lookup built course by course is the reference lookup, a later course replacing an earlier one under the same key |
| InstructorToCourse.RunCourses | backend/src/__tests__/instructor_to_course.ts:97-188 | the update loop computes the reference fold of the step over the database courses |
| InstructorToCourse.ProcessCourse | backend/src/__tests__/instructor_to_course.ts:97-188 | one iteration computes the reference step |
| UpdateReviews.BuildIndexMeaning | backend/src/__tests__/update_reviews.ts:55-71 | the index has an entry for exactly the mappings' course codes, an inner entry for exactly the name keys seen with that code, and the inner list is those mappings' CxIDs without repeats in first-seen order |
| UpdateReviews.CxidsForFirst | backend/src/__tests__/update_reviews.ts:134 | the first listed CxID is that of the first mapping for the code and key |
| UpdateReviews.CxidsForMembers | backend/src/__tests__/update_reviews.ts:66-70 | the listed CxIDs are distinct and are exactly those of the matching mappings |
| UpdateReviews.ByIdDomain | backend/src/__tests__/update_reviews.ts:78-84 | the id map holds exactly the ids of the records |
| UpdateReviews.ByIdLast | backend/src/__tests__/update_reviews.ts:78-84 | each id is mapped to the last record with it |
| UpdateReviews.PrimaryMeaning | backend/src/__tests__/update_reviews.ts:121-137 | the course-specific lookup answers exactly when the slug and name are present and some mapping has that code and name key, and then with the first such mapping's CxID |
| UpdateReviews.ResolveMeaning | backend/src/__tests__/update_reviews.ts:107-176 | a review is an error exactly when its course or instructor is unknown; otherwise a truthy primary CxID is used, else the instructor's first CxID when truthy, else the review stays legacy |
| UpdateReviews.RunAllBuckets | backend/src/__tests__/update_reviews.ts:104-194 | each review lands in exactly one bucket and exactly the mapped reviews are written, with their CxID |
| UpdateReviews.MigrationBuckets | backend/src/__tests__/update_reviews.ts:92-194 | the three counters partition the reviews, one write per mapped review |
| UpdateReviews.MigrateReviews | backend/src/__tests__/update_reviews.ts:28-203 | the migration computes the reference writes, none in a dry run, with the same counters either way |
| UpdateReviews.BuildIndexLoop | backend/src/__tests__/update_reviews.ts:58-71 | the forEach computes the reference index |
| UpdateReviews.IndexMappingStep | backend/src/__tests__/update_reviews.ts:59-70 | one callback creates the course map and the name list on first use and adds the CxID once, as AddMapping does |
| UpdateReviews.ProcessReview | backend/src/__tests__/update_reviews.ts:104-194 | one iteration computes the reference step |
| Pages.Find | backend/src/routes/admin/PagesRoutes.ts:20 | the first page with the id, none iff no page has it |
| Pages.CreateError | backend/src/routes/admin/PagesRoutes.ts:38-53 | no error iff id, name and header are given and exactly one of link and content; the missing-field message comes first, and both link and content give the second message |
| Pages.NewPage | backend/src/routes/admin/PagesRoutes.ts:55-61 | the stored page keeps the request's fields and has exactly one of content and link |
| Pages.ApplyUpdate | backend/src/routes/admin/PagesRoutes.ts:84-96 | each field given truthy replaces the stored one; every other field is kept |
| Pages.ApplyUpdateNoFields | backend/src/routes/admin/PagesRoutes.ts:76-90 | when none of name, content, header or link is given, the update document can change only the id |
| Pages.LegacyNewPage | backend/src/routes/AdminRoutes.ts:45 | the older router stores id, name and content, the schema's default header and no link |
| Pages.LegacyApplyUpdate | backend/src/routes/AdminRoutes.ts:67-71 | the older update sets each of id, name and content the body gives, keeps those it leaves out, as Mongoose 7 drops undefined keys, and keeps header and link |
| Pages.LegacyApplyUpdateIdempotent | backend/src/routes/AdminRoutes.ts:67-71 | sending the same older update twice leaves the page as the first one did |
| Pages.ReplaceKeepsUnique | backend/src/routes/admin/PagesRoutes.ts:92-96 | writing a page with an id nobody else has keeps the ids unique |
| Pages.AppendKeepsUnique | backend/src/routes/admin/PagesRoutes.ts:55-62 | appending a page with a fresh id keeps the ids unique |
| Pages.RemoveKeepsUnique | backend/src/routes/admin/PagesRoutes.ts:113 | removing a page keeps the ids unique |
| Pages.PageStore.constructor | backend/src/models/PageContent.ts:11-17 | the store starts empty with unique ids |
| Pages.PageStore.Get | backend/src/routes/admin/PagesRoutes.ts:17-31 | the first page with the id, else 404 |
| Pages.PageStore.Create | backend/src/routes/admin/PagesRoutes.ts:34-68 | 400 on a failed check, 500 on a taken id, both changing nothing; otherwise 201 and the page appended |
| Pages.PageStore.Update | backend/src/routes/admin/PagesRoutes.ts:71-107 | 400 with nothing to update, 404 for an unknown id, 500 when the new id is another page's; otherwise only that page changes, as the update document says |
| Pages.PageStore.Delete | backend/src/routes/admin/PagesRoutes.ts:110-124 | 404 for an unknown id; otherwise the page is returned and removed |
| Pages.PageStore.LegacyCreate | backend/src/routes/AdminRoutes.ts:34-52 | 400 unless id, name and content are given; 500 on a taken id; otherwise 201 and the page appended |
| Pages.PageStore.LegacyUpdate | backend/src/routes/AdminRoutes.ts:55-82 | 400 unless name or content is given, 404 for an unknown id, 500 on a taken id; otherwise that page takes the given fields |
| Pages.FindUnique | backend/src/models/PageContent.ts:12-17 | with unique ids, the page found is the only one with its id |
| Pages.DeleteRemovesId | backend/src/routes/admin/PagesRoutes.ts:113-120 | after a delete no page has that id any more |
| Forum.RateStatus | backend/src/routes/ForumRoutes.ts:67-92 | 400 iff the scores are not both numbers in [1, 5] or the custom ratings are not an array; 403 iff valid but the period has ended; 409 iff valid, open and the user has rated; otherwise 201 |
| Forum.NewRating | backend/src/routes/ForumRoutes.ts:94-101 | the pushed rating carries the user, both scores in [1, 5], the custom ratings and the time of the check |
| Forum.AdmitKeepsWellFormed | backend/src/routes/ForumRoutes.ts:67-101 | an admitted rating keeps every score in [1, 5] and at most one rating per user |
| Forum.SecondRatingRefused | backend/src/routes/ForumRoutes.ts:87-92 | a user who has rated can never add a second rating to the event |
| Forum.ForumEvent.constructor | backend/src/models/Forum.ts:56-59 | an event starts with no ratings and its rating deadline |
| Forum.ForumEvent.Rate | backend/src/routes/ForumRoutes.ts:63-105 | the status is the admission status; only a 201 appends the new rating, and the rating invariant holds |
| Forum.RateEvent | backend/src/routes/ForumRoutes.ts:49-110 | 400 when the id does not cast, since findById throws into the catch, and then no rating is added; 404 when no event has the id; otherwise the event's admission status |
| Forum.VisibleComments | backend/src/routes/ForumRoutes.ts:124-127 | the listing is never longer than the stored comments |
| Forum.VisibleCommentsMeaning | backend/src/routes/ForumRoutes.ts:117-139 | the listing holds exactly the event's non-hidden comments |
| Forum.HiddenNotListed | backend/src/routes/ForumRoutes.ts:124-127 | every non-hidden comment of the event is listed and a hidden one never is |
| Forum.RateStatusAsWritten | backend/src/routes/ForumRoutes.ts:67-109 | as the route stands: 403 iff the data is valid and the period has ended, 400 in every other case, since the missing `hasUserRated` throws into the catch |
| Forum.RatingRefusedAsWritten | backend/src/routes/ForumRoutes.ts:87-109 | as written no rating is ever admitted; every request the intended rules admit answers 400 |
| Forum.OpenRatingRefusedAsWritten | backend/src/routes/ForumRoutes.ts:87-109 | a valid request in an open period with no earlier rating is admitted by the intended rules and refused with 400 as written |
| Forum.ListCommentsAsWritten | backend/src/routes/ForumRoutes.ts:117-139 | as written the import of the comment model is undefined, so every listing fails with the catch's 500 |
| Forum.ListComments | backend/src/routes/ForumRoutes.ts:117-139 | with the model exported: 500 iff the id does not cast for the eventId filter; otherwise a list holding exactly the event's non-hidden comments |
| Forum.CommentsFailAsWritten | backend/src/routes/ForumRoutes.ts:117-139 | a visible comment of the event, whose event id casts, that the intended route lists is never returned as written |
| AuthMiddleware.FindById | backend/src/middleware/authMiddleware.ts:33 | the first record with the id, none iff no record has it |
| AuthMiddleware.IsAuthenticated | backend/src/middleware/authMiddleware.ts:4-16 | the request passes iff the session has a user; otherwise 401 |
| AuthMiddleware.IsAdmin | backend/src/middleware/authMiddleware.ts:18-48 | 401 iff no session user; 403 iff the record is missing or not an admin; 500 iff the lookup fails; passes iff the record is an admin |
| AuthMiddleware.AdminIsAuthenticated | backend/src/middleware/authMiddleware.ts:18-42 | whoever passes isAdmin passes isAuthenticated and has an admin record |
| AuthMiddleware.FirstRecordDecides | backend/src/middleware/authMiddleware.ts:33-39 | only the first record with the session's id is consulted: a later admin record with the same id does not help |
| AuthRoutes.UserOf | backend/src/routes/AuthRoutes.ts:87-96 | the session user takes its id, email and names from the named claims, and the session index and name id from the response |
| AuthRoutes.Session.constructor | backend/src/routes/AuthRoutes.ts:10-25 | a new session has no user and no pending request |
| AuthRoutes.Session.Login | backend/src/routes/AuthRoutes.ts:48-68 | 500 before SAML is set up; otherwise the request id is stored and the reply redirects to the identity provider |
| AuthRoutes.Session.Consume | backend/src/routes/AuthRoutes.ts:71-119 | 500 before SAML is set up or when the response does not parse; otherwise the user is stored and the reply is the frontend redirect unless saving the session fails |
| AuthRoutes.Session.Logout | backend/src/routes/AuthRoutes.ts:122-164 | 500 before SAML is set up; without a user a redirect home and nothing changes; otherwise the session is destroyed and the reply redirects |
| AuthRoutes.FindByEmail | backend/src/routes/AuthRoutes.ts:181-183 | a record with the email, none iff no record has it |
| AuthRoutes.NewUser | backend/src/routes/AuthRoutes.ts:187-193 | the created record copies the session's id, email and names and is not an admin |
| AuthRoutes.UserTable.constructor | backend/src/models/People.ts:12-45 | the user table starts empty with unique emails |
| AuthRoutes.UserTable.CurrentUser | backend/src/routes/AuthRoutes.ts:167-228 | 401 without a session user; otherwise the record with the session's id, else the one with its email, else a newly inserted non-admin record, or 500 when it cannot be saved |
| AuthRoutes.CurrentUserCreatesOnce | backend/src/routes/AuthRoutes.ts:177-198 | after a creation both lookups find the new record, so a second call creates nothing, and emails stay unique |
| FrontendMiddleware.Decide | frontend/src/middleware.ts:3-33 | a redirect home iff the matcher lets the middleware run on the path, the path is not public and no session cookie is present |
| FrontendMiddleware.AssetsPass | frontend/src/middleware.ts:28-33 | paths under _next/static, _next/image, favicon.ico, logo and public pass without a session, because the matcher skips them |
| FrontendMiddleware.ProtectedPageRedirects | frontend/src/middleware.ts:3-25 | a visitor without a session is sent home from /dashboard |
| FrontendMiddleware.MoreCookiesNeverRedirect | frontend/src/middleware.ts:16-22 | more cookies never turn a pass into a redirect |
| FrontendMiddleware.SamlRoutesPublic | frontend/src/middleware.ts:12-13 | any path containing a SAML login or logout route is public |
| FrontendMiddleware.ApiAuthPublic | frontend/src/middleware.ts:11 | everything under /api/auth/ is public |
| EngageEvents.GetEvents | backend/src/services/EngageEventsService.ts:42-45 | every event in the feed is the formatted form of a fetched item that is not skipped, every such item appears formatted, and the feed is no longer than the fetch |
| EngageEvents.Format | backend/src/services/EngageEventsService.ts:60-93 | the location falls back to "N/A" when the Engage one is empty, the status is always "approved", the other fields are copied, and in production both times move back seven hours so the duration is kept |
| EngageEvents.Kept | backend/src/services/EngageEventsService.ts:44-58 | an item is kept exactly when its trimmed name is neither "Sunday Practice" nor "General Meetings" and its type is not "Organization Only" |
| EngageEvents.FormatAll | backend/src/services/EngageEventsService.ts:45 | one formatted event per item, position by position |
| EngageEvents.GetEventsIsFilterThenMap | backend/src/services/EngageEventsService.ts:42-45 | the feed is the kept items, in their order, each formatted |
| EngageEvents.FeedHasNoSkippedNames | backend/src/services/EngageEventsService.ts:43-58 | no event in the feed has a filtered name, and every one is approved |
| TextFormatting.SpaceRun | frontend/src/utils/textFormatting.tsx:36 | the `\s*` of the break-tag pattern: the longest all-white-space prefix |
| TextFormatting.BrLength | frontend/src/utils/textFormatting.tsx:36 | a match of the break-tag pattern starts with `<br` in any case and ends with `>` |
| TextFormatting.CollapseLength | frontend/src/utils/textFormatting.tsx:46 | a match of the newline-run pattern is at least two characters long and all white space |
| TextFormatting.FormatReviewText | frontend/src/utils/textFormatting.tsx:8-49 | empty text gives empty text, and the result neither starts nor ends with white space |
| TextFormatting.ParagraphsAreLines | frontend/src/utils/textFormatting.tsx:64-72 | the component renders one paragraph per line: as many as newlines plus one, none holding a newline, joined back into the formatted text |
| TextFormatting.AmpDecodedFirst | frontend/src/utils/textFormatting.tsx:13-14 | because `&amp;` is decoded before `&lt;`, the text "&amp;lt;" is shown as "<" |
| TextFormatting.ReplaceCINoMatch | frontend/src/utils/textFormatting.tsx:37-40 | after a case-insensitive tag replacement no occurrence of the tag, in any case, is left |
| TextFormatting.BlockTagsGone | frontend/src/utils/textFormatting.tsx:37-40 | none of `<p>`, `</p>`, `<div>`, `</div>` survives its own replacement |
| TextFormatting.CollapseKeepsText | frontend/src/utils/textFormatting.tsx:46 | collapsing newline runs removes only white space and never makes the text longer |
| Countdown.Decompose | frontend/src/components/vote/BallotCountdown.tsx:13-25 | no time left exactly when the distance is negative; otherwise hours, minutes and seconds lie in their unit's range and the days are the whole days left |
| Countdown.Tick | frontend/src/components/vote/BallotCountdown.tsx:12-27 | the timer keeps running exactly while the end date has not passed, and sets the decomposed distance |
| Countdown.DecomposeRecomposes | frontend/src/components/vote/BallotCountdown.tsx:18-25 | the shown fields give the distance back to the second: the dropped part is under one second |
| Countdown.DecomposeUnique | frontend/src/components/vote/BallotCountdown.tsx:18-25 | no other in-range fields describe the same distance |
| Countdown.ComponentView | frontend/src/components/vote/BallotCountdown.tsx:31-45 | "CLOSED" exactly when there is no time left; otherwise four cells, each a number followed by its unit letter D, H, M, S in that order |
| Countdown.Pad2 | frontend/src/app/vote/page.tsx:120 | two characters at least, and below 100 exactly the two decimal digits |
| Countdown.PageView | frontend/src/app/vote/page.tsx:107-120 | "VOTING CLOSED" exactly when there is no time left; otherwise four cells of at least two characters, exactly two for the hours, minutes and seconds |
| Countdown.PageShowsDigits | frontend/src/app/vote/page.tsx:83-120 | an open countdown on the page shows hours, minutes and seconds as their two decimal digits |
| VotePage.Ids | frontend/src/app/vote/page.tsx:207 | the ids of the cards, position by position |
| VotePage.BallotsMeaning | frontend/src/app/vote/page.tsx:267-277 | a position has a ballot exactly when some candidate runs for it, and that ballot holds exactly its candidates, sorted by name |
| VotePage.InitialRankings | frontend/src/app/vote/page.tsx:279-283 | one ranking per ballot, holding the ballot's ids in ballot order |
| VotePage.RankChange | frontend/src/app/vote/page.tsx:286-288 | the given position's ranking becomes the new ids and every other position's is kept |
| VotePage.FindIndex | frontend/src/app/vote/page.tsx:200-201 | the first index holding the id, or -1 exactly when no card has it |
| VotePage.DragOverPermutes | frontend/src/app/vote/page.tsx:196-204 | dragging permutes the list; it does nothing without a dragged id or over the dragged card itself; with both cards present the dragged one lands at the target's index and the others keep their order |
| VotePage.Page.Load | frontend/src/app/vote/page.tsx:266-284 | the page's ballots are the grouped, sorted candidates and its rankings their initial order |
| VotePage.Page.HandleRankChange | frontend/src/app/vote/page.tsx:286-288 | the rankings take the rank change and the ballots are untouched |
| VotePage.Section.constructor | frontend/src/app/vote/page.tsx:190-192 | a section starts with its candidates and nothing dragged |
| VotePage.Section.HandleDragStart | frontend/src/app/vote/page.tsx:194 | the dragged id is set and the list is kept |
| VotePage.Section.HandleDragEnd | frontend/src/app/vote/page.tsx:226 | the dragged id is cleared and the list is kept |
| VotePage.Section.HandleDragOver | frontend/src/app/vote/page.tsx:196-209 | the list becomes the dragged order, a permutation of the old one; when a card moves the page's ranking for this position becomes the new id order, and otherwise nothing changes |
| ElectionsDashboard.CapFirst | frontend/src/components/ui/ElectionsDashboard.tsx:41 | same length, first letter upper-cased and the rest kept |
| ElectionsDashboard.CapWords | frontend/src/components/ui/ElectionsDashboard.tsx:41 | each word capitalised, position by position |
| ElectionsDashboard.LabelWords | frontend/src/components/ui/ElectionsDashboard.tsx:38-42 | for a value without spaces, the label's words are the value's underscore-separated words, each capitalised |
| ElectionsDashboard.TitleWord | frontend/src/components/ui/ElectionsDashboard.tsx:48 | title-casing a word keeps its length |
| ElectionsDashboard.TitleWords | frontend/src/components/ui/ElectionsDashboard.tsx:47-49 | each word title-cased, position by position |
| ElectionsDashboard.TitleWordIdempotent | frontend/src/components/ui/ElectionsDashboard.tsx:48 | title-casing a word twice is title-casing it once |
| ElectionsDashboard.ToTitleCaseIdempotent | frontend/src/components/ui/ElectionsDashboard.tsx:44-50 | title-casing a position twice is title-casing it once |
| ElectionsDashboard.ElectionStatus | frontend/src/components/ui/ElectionsDashboard.tsx:559-567 | Draft without both dates; Configured exactly when both dates are set, now is before the start and there are candidates; Active exactly when now lies within the dates |
| ElectionsDashboard.StatusTimeline | frontend/src/components/ui/ElectionsDashboard.tsx:559-567 | for a valid date range the status is Draft or Configured before the start and Ended after the end |
| ElectionsDashboard.SaveElectionRequest | frontend/src/components/ui/ElectionsDashboard.tsx:306-374 | the required-fields alert exactly when a name or a date is missing; the start-before-end alert exactly when those are set and the start is not before the end; the invalid-time alert of the catch exactly when the checks pass but a date does not parse, so `toISOString` throws before the fetch; otherwise a request with a valid range, PUT to the selected election or POST for a new one |
| ElectionsDashboard.LocalPosts | frontend/src/components/ui/ElectionsDashboard.tsx:343-360 | after a new election is saved, every local candidate, and only those, is posted with its name and position to the new election's candidates |
| ElectionsDashboard.AddCustom | frontend/src/components/ui/ElectionsDashboard.tsx:445-451 | the resolved position is in the list afterwards, nothing is lost, and no duplicate is introduced |
| ElectionsDashboard.EditLocal | frontend/src/components/ui/ElectionsDashboard.tsx:455-466 | only candidates with the edited id change, and only their name and position |
| ElectionsDashboard.DeleteLocal | frontend/src/components/ui/ElectionsDashboard.tsx:515-517 | exactly the candidates with another id remain |
| ElectionsDashboard.DeleteUndoesAdd | frontend/src/components/ui/ElectionsDashboard.tsx:468-517 | deleting a freshly added local candidate gives back the list before the addition |
| ElectionsDashboard.LocalIdPrefix | frontend/src/components/ui/ElectionsDashboard.tsx:471 | a local id always starts with "local-", so deleting it never reaches the server |
| ElectionsDashboard.EditSelection | frontend/src/components/ui/ElectionsDashboard.tsx:538-557 | a listed position is selected as itself; any other becomes "__other__" with the position as custom text |
| ElectionsDashboard.EditSelectionResolves | frontend/src/components/ui/ElectionsDashboard.tsx:434-557 | opening a candidate and saving it again keeps a listed position and gives an unlisted one trimmed and title-cased |
| ElectionsDashboard.ResolvedTitleCased | frontend/src/components/ui/ElectionsDashboard.tsx:434-557 | an unlisted position that is already trimmed and title-cased survives an edit unchanged |
| ElectionsDashboard.NotWriteIns | frontend/src/components/ui/ElectionsDashboard.tsx:78 | exactly the candidates that are not write-ins |
| ElectionsDashboard.PreviewHasNoWriteIns | frontend/src/components/ui/ElectionsDashboard.tsx:77-88 | a position has a preview ballot exactly when some non-write-in candidate runs for it, and the ballot holds only such candidates of that position |
| ElectionsDashboard.ToggleIncomplete | frontend/src/components/ui/ElectionsDashboard.tsx:90-106 | switching on a section whose ranking is incomplete disables submit; switching it twice restores the active set |
| ElectionsDashboard.CanSubmitMeaning | frontend/src/components/ui/ElectionsDashboard.tsx:101-106 | submit is enabled exactly when some section is active and every active one is complete |
| ElectionsDashboard.Dashboard.constructor | frontend/src/components/ui/ElectionsDashboard.tsx:200-216 | the dashboard starts with no election selected, no candidates and no custom positions |
| ElectionsDashboard.Dashboard.ResetCandidateForm | frontend/src/components/ui/ElectionsDashboard.tsx:298-304 | the candidate form is cleared and closed; the candidates and the election are kept |
| ElectionsDashboard.Dashboard.HandleSaveCandidate | frontend/src/components/ui/ElectionsDashboard.tsx:433-509 | missing fields exactly when there is no name or no resolved position, and then nothing changes; otherwise a custom position is remembered, and without a saved election the local list is edited or extended, else a PUT or POST carries the name and position |
| ElectionsDashboard.Dashboard.HandleDeleteCandidate | frontend/src/components/ui/ElectionsDashboard.tsx:511-536 | nothing without confirmation; a local id is filtered out without a request; any other id is deleted on the server |
| ElectionsDashboard.Dashboard.HandleEditCandidate | frontend/src/components/ui/ElectionsDashboard.tsx:538-557 | the form is filled from the candidate, its position goes through the edit selection, and the form opens |
| HomepageEvents.TotalPages | frontend/src/components/ui/HomepageEvents.tsx:9-10 | the fewest pages of three that hold every event, and none exactly when there are no events |
| HomepageEvents.SliceIndex | frontend/src/components/ui/HomepageEvents.tsx:13 | a slice bound is clamped into the list, and an in-range bound is kept |
| HomepageEvents.Slice | frontend/src/components/ui/HomepageEvents.tsx:13 | a slice is never longer than the list |
| HomepageEvents.Visible | frontend/src/components/ui/HomepageEvents.tsx:12-13 | at most three events, and for a page that starts inside the list exactly the three (or fewer at the end) starting at its first index |
| HomepageEvents.PagesCover | frontend/src/components/ui/HomepageEvents.tsx:9-13 | paging from a page to the last shows the events from that page's start, each once and in order |
| HomepageEvents.PageSizes | frontend/src/components/ui/HomepageEvents.tsx:9-13 | a page that exists shows one to three events, and every page but the last shows three |
| HomepageEvents.Carousel.constructor | frontend/src/components/ui/HomepageEvents.tsx:7-8 | the carousel starts on the first page |
| HomepageEvents.Carousel.Render | frontend/src/components/ui/HomepageEvents.tsx:23-94 | "No upcoming events" exactly when there are none; otherwise at most three events, the page number and count, Previous disabled exactly on the first page and Next exactly on the last |
| HomepageEvents.Carousel.HandlePrevious | frontend/src/components/ui/HomepageEvents.tsx:15-17 | one page back, never below the first |
| HomepageEvents.Carousel.HandleNext | frontend/src/components/ui/HomepageEvents.tsx:19-21 | one page on, never past the last |
| Rooms.Stars | frontend/src/components/housing/Rooms.tsx:6-23 | five stars, star i filled exactly when i is below the rating's floor |
| Rooms.FilledStars | frontend/src/components/housing/Rooms.tsx:6-23 | the filled stars come first and number the rating's floor clamped to 0..5 |
| Rooms.OccupancyType | frontend/src/components/housing/Rooms.tsx:25-40 | "Unknown" exactly for a missing or zero occupancy; "Single", "Double", "Triple" exactly for 1, 2, 3; any other number shown as itself |
| Rooms.RatingLine | frontend/src/components/housing/Rooms.tsx:52-61 | stars exactly when the room has a positive review count, drawn from the average rating or 0 when there is none |
| EventsDashboard.UpcomingOf | frontend/src/app/dashboard/events/page.tsx:139-140 | exactly the events dated after now |
| EventsDashboard.PastOf | frontend/src/app/dashboard/events/page.tsx:141-142 | exactly the events dated at or before now |
| EventsDashboard.StatusPartitions | frontend/src/app/dashboard/events/page.tsx:139-143 | the upcoming and past filters split the events: each lands in exactly one, as often as it occurs |
| EventsDashboard.MatchingOf | frontend/src/app/dashboard/events/page.tsx:147-153 | exactly the events whose lower-cased title, description or location contains the lower-cased query |
| EventsDashboard.Search | frontend/src/app/dashboard/events/page.tsx:146-154 | an empty query keeps the list; any other keeps exactly the matching events |
| EventsDashboard.CompareMeaning | frontend/src/app/dashboard/events/page.tsx:157-176 | the comparator is the key difference, negated for "desc"; it is antisymmetric, and "name" compares every two events as equal |
| EventsDashboard.SortEvents | frontend/src/app/dashboard/events/page.tsx:157-176 | a permutation of the list, ascending or descending by the column's key as the order says |
| EventsDashboard.SortByNameKeepsOrder | frontend/src/app/dashboard/events/page.tsx:157-176 | sorting by "name" leaves the filtered order unchanged, since the comparator is always 0 and the sort is stable |
| EventsDashboard.ShownMembers | frontend/src/app/dashboard/events/page.tsx:134-179 | an event is shown exactly when it is in the list, passes the status filter and, for a non-empty query, matches it |
| EventsDashboard.NextSort | frontend/src/app/dashboard/events/page.tsx:217-224 | the clicked column becomes the sort field; the same column flips the order and a new one starts descending |
| EventsDashboard.SortTwiceRestores | frontend/src/app/dashboard/events/page.tsx:217-224 | clicking the same column twice restores the sort |
| EventsDashboard.ReviewedOf | frontend/src/app/dashboard/events/page.tsx:182 | exactly the events with statistics and at least one review |
| EventsDashboard.SumReviewsAtLeastCount | frontend/src/app/dashboard/events/page.tsx:188 | every reviewed event adds at least one review to the total |
| EventsDashboard.ComputeAnalytics | frontend/src/app/dashboard/events/page.tsx:181-215 | nothing exactly when no event has a review; otherwise the event count, the review total over reviewed events, at least one review per reviewed event on average |
| EventsDashboard.UpdatedAnalytics | frontend/src/app/dashboard/events/page.tsx:184-214 | the analytics are kept when no event has a review and recomputed otherwise |
| EventsDashboard.Leader | frontend/src/app/dashboard/events/page.tsx:198-204 | the leader of a non-empty list is one of its events and no event has a larger key |
| EventsDashboard.LeaderIsFirstOfSort | frontend/src/app/dashboard/events/page.tsx:198-204 | the first event of the stable descending sort is exactly the leader, so the model may pick it without sorting |
| EventsDashboard.AnalyticsNamesTheLeaders | frontend/src/app/dashboard/events/page.tsx:198-214 | the most reviewed and highest rated events named are reviewed events with as many reviews, and as high a rating, as any other reviewed event |
| EventsDashboard.OnAuth | frontend/src/app/dashboard/events/page.tsx:124-131 | the events are fetched exactly when the session has loaded and the user is an administrator, and nothing happens while it loads |
| EventsDashboard.Dashboard.constructor | frontend/src/app/dashboard/events/page.tsx:53-69 | no events, sorted by date descending, every status, zeroed analytics |
| EventsDashboard.Dashboard.Loaded | frontend/src/app/dashboard/events/page.tsx:92-115 | the events are stored and the analytics updated only when some event has a review |
| EventsDashboard.Dashboard.HandleSort | frontend/src/app/dashboard/events/page.tsx:217-224 | the sort column and order take the next sort and nothing else changes |
| EventsDashboard.Dashboard.SetSearchQuery | frontend/src/app/dashboard/events/page.tsx:56 | only the query changes |
| EventsDashboard.Dashboard.SetStatusFilter | frontend/src/app/dashboard/events/page.tsx:59 | only the status filter changes |
| EventsDashboard.Dashboard.Refresh | frontend/src/app/dashboard/events/page.tsx:134-179 | the shown list becomes the filtered, searched, sorted events and nothing else changes |
| OpenForumPage.FilterEvents | frontend/src/app/open-forum/page.tsx:42-56 | "past" keeps exactly the events before now, "upcoming" exactly those at or after now, "all" keeps the list |
| OpenForumPage.FiltersPartition | frontend/src/app/open-forum/page.tsx:42-56 | the past and upcoming lists split the events between them, each as often as it occurs |
| OpenForumPage.DiffDays | frontend/src/app/open-forum/page.tsx:63-77 | the day count is the whole days up to the event rounded up: it is the one d with (d - 1) days < the distance <= d days |
| OpenForumPage.DiffDaysSign | frontend/src/app/open-forum/page.tsx:63-77 | the count is negative exactly a whole day or more before now, zero within the day before, and never negative for an event at or after now |
| OpenForumPage.StatusAgrees | frontend/src/app/open-forum/page.tsx:60-90 | the card is gray exactly for "Past Event", blue exactly for "Upcoming", and yellow for today, tomorrow and the days of the week ahead |
| OpenForumPage.RatingLabel | frontend/src/app/open-forum/page.tsx:218 | the rating count, a missing list counting as 0, followed by "rating" for exactly one and "ratings" otherwise |
| OpenForumPage.Board.constructor | frontend/src/app/open-forum/page.tsx:10-12 | no events and the "past" filter |
| OpenForumPage.Board.Loaded | frontend/src/app/open-forum/page.tsx:30-31 | the fetched events are stored and the filter kept |
| OpenForumPage.Board.SetFilter | frontend/src/app/open-forum/page.tsx:12 | only the filter changes |
| CoursesPage.EntryTexts | frontend/src/app/campus/courses/page.tsx:176-178 | the text each instructor entry joins as, position by position |
| CoursesPage.StrCompare | frontend/src/app/campus/courses/page.tsx:168-180 | the comparison is at most 0 exactly when the first string orders first, and 0 exactly for equal strings |
| CoursesPage.StrCompareFlips | frontend/src/app/campus/courses/page.tsx:168-169 | swapping the strings negates the comparison |
| CoursesPage.CompareMeaning | frontend/src/app/campus/courses/page.tsx:162-185 | descending is ascending with the arguments swapped; ascending compares ids as numbers and every other column by its text, arrays joined with ", " |
| CoursesPage.SortResults | frontend/src/app/campus/courses/page.tsx:162-185 | a permutation of the results in which every earlier course compares at most 0 against every later one |
| CoursesPage.SortResultsMeaning | frontend/src/app/campus/courses/page.tsx:162-185 | the ids increase (or decrease) along the sorted list, and the column texts rise (or fall) in code-point order |
| CoursesPage.NextSort | frontend/src/app/campus/courses/page.tsx:153-160 | the clicked column becomes the sort field; the same column flips the direction and a new one starts ascending |
| CoursesPage.SortTwiceRestores | frontend/src/app/campus/courses/page.tsx:153-160 | clicking the same column twice restores the sort |
| CoursesPage.ExtractSchoolCode | frontend/src/app/campus/courses/page.tsx:187-191 | the last two characters when both are upper-case letters, otherwise "PO" |
| CoursesPage.ExtractSchoolCodeOfSuffix | frontend/src/app/campus/courses/page.tsx:187-191 | a code ending in a school's two letters is read as that school |
| CoursesPage.Toggle | frontend/src/app/campus/courses/page.tsx:146-151 | the toggled school flips and every other keeps its choice |
| CoursesPage.ToggleTwice | frontend/src/app/campus/courses/page.tsx:146-151 | toggling a school twice restores the selection |
| CoursesPage.ActiveFrom | frontend/src/app/campus/courses/page.tsx:89-91 | exactly the selected schools, from the record's order |
| CoursesPage.SchoolsParamMeaning | frontend/src/app/campus/courses/page.tsx:89-97 | with some school selected, the comma-separated parameter names a school exactly when it is selected |
| CoursesPage.OnInputs | frontend/src/app/campus/courses/page.tsx:136-144 | the results are cleared exactly when both inputs are empty; otherwise a search runs with the term, the number and the selected schools |
| CoursesPage.ValidIds | frontend/src/app/campus/courses/page.tsx:66 | exactly the positive integer ids |
| CoursesPage.FetchInstructors | frontend/src/app/campus/courses/page.tsx:63-76 | one reference per valid id, in order, named by its lookup or "Unknown Instructor" when the lookup fails |
| CoursesPage.EntryIds | frontend/src/app/campus/courses/page.tsx:107-109 | the numeric id of each entry, a bare number or a reference's id |
| CoursesPage.WithInstructors | frontend/src/app/campus/courses/page.tsx:105-114 | a course without instructor ids is returned as it is; otherwise only its instructor list changes |
| CoursesPage.AllWithInstructors | frontend/src/app/campus/courses/page.tsx:103-119 | every returned course in order with its instructors fetched |
| CoursesPage.CourseSearch.constructor | frontend/src/app/campus/courses/page.tsx:47-60 | every school selected, empty inputs, no results or error, sorted by name ascending |
| CoursesPage.CourseSearch.HandleSchoolToggle | frontend/src/app/campus/courses/page.tsx:146-151 | the selection takes the toggle and nothing else changes |
| CoursesPage.CourseSearch.HandleSort | frontend/src/app/campus/courses/page.tsx:153-160 | the sort takes the next column and direction and nothing else changes |
| CoursesPage.CourseSearch.InputsChanged | frontend/src/app/campus/courses/page.tsx:136-144 | the step is the input rule; clearing empties the results, a search leaves them until it returns |
| CoursesPage.CourseSearch.SearchReturned | frontend/src/app/campus/courses/page.tsx:84-127 | a reply gives its courses with their instructors and clears the error; a failure gives no results and the retry message |
| Header.VisiblePages | frontend/src/components/ui/Header.tsx:33-35 | a signed-in user gets every page; a visitor gets exactly the pages not named "Budget" |
| Header.WithoutBudget | frontend/src/components/ui/Header.tsx:34 | exactly the pages not named "Budget" |
| Header.EmptySections | frontend/src/components/ui/Header.tsx:38-44 | exactly the five default sections, each empty |
| Header.Push | frontend/src/components/ui/Header.tsx:51-54 | filing a page adds its lower-cased header to the sections, creating it when missing |
| Header.FileStep | frontend/src/components/ui/Header.tsx:46-55 | filing one more page keeps every section equal to the pages so far with that lower-cased header |
| Header.OrganizePages | frontend/src/components/ui/Header.tsx:38-55 | the sections are the defaults plus every lower-cased header in use, and each holds exactly its pages in order |
| Header.FetchPages | frontend/src/components/ui/Header.tsx:26-57 | with every page's header sent: every default section is present, each holds the visible pages with its header, and a visitor's sections never hold "Budget" |
| Header.Href | frontend/src/components/ui/Header.tsx:114-120 | a page's own link when it has one, otherwise /pages/ followed by the lower-cased section and the page id |
| Header.Target | frontend/src/components/ui/Header.tsx:121-125 | a new tab exactly when the page has a link starting with "http", the same tab otherwise |
| Header.NewTabIsExternal | frontend/src/components/ui/Header.tsx:114-125 | a page opened in a new tab goes to its own external link, never to a page of the site |
| Header.LinksOf | frontend/src/components/ui/Header.tsx:110-130 | one link per page, in order, with its address, target and name |
| Header.RenderSection | frontend/src/components/ui/Header.tsx:100-130 | "Loading pages..." exactly while loading; otherwise the links of the lower-cased section, none for an unknown one |
| Header.SpaceWords | frontend/src/components/ui/Header.tsx:218-221 | inserting spaces at word boundaries leaves every other character in place |
| Header.SpaceWordsSeparates | frontend/src/components/ui/Header.tsx:218-221 | after the replacement no lower-case letter is directly followed by an upper-case one, and the first character is kept |
| Header.SpaceWordsIdentity | frontend/src/components/ui/Header.tsx:218-221 | a label without a boundary is left as it is |
| Header.SpaceWordsJoin | frontend/src/components/ui/Header.tsx:10-221 | two words run together at one boundary are split by one space, so "CollegeStaff" reads "College Staff" |
| Header.HeaderState.constructor | frontend/src/components/ui/Header.tsx:14-23 | every default section empty, no dropdown open, pages loading, mobile menu closed |
| Header.HeaderState.PagesLoaded | frontend/src/components/ui/Header.tsx:26-63 | with every page's header sent: the visible pages are filed into sections and loading ends; the menus are kept |
| Header.Listed | backend/src/routes/admin/PagesRoutes.ts:7-14 | the pages route sends a stored page's id and name, with no header and no link |
| Header.VisibleFetched | frontend/src/components/ui/Header.tsx:33-35 | a signed-in user gets every fetched record; a visitor gets exactly the records not named "Budget" |
| Header.FetchPagesAsWritten | frontend/src/components/ui/Header.tsx:26-63 | the toLowerCase of a missing header throws, so no sections are set exactly when some visible record lacks its header; otherwise the sections of FetchPages |
| Header.ListedPagesThrow | frontend/src/components/ui/Header.tsx:29-48 | against the pages route's projection the fetch throws exactly when the user may see some stored page |
| Header.HeaderState.PagesLoadedAsWritten | frontend/src/components/ui/Header.tsx:26-63 | the sections are kept when a visible record lacks its header, replaced by the filed pages otherwise, and loading ends either way |
| Header.HeaderState.HandleDropdownClick | frontend/src/components/ui/Header.tsx:68-70 | clicking the open dropdown closes it and any other opens it; nothing else changes |
| Header.HeaderState.HandleClickOutside | frontend/src/components/ui/Header.tsx:73-85 | a click outside every dropdown closes the open one; any other click changes nothing |
| HousingPage.CampusLabel | frontend/src/app/campus/housing/page.tsx:62-65 | the campus with its first letter upper-cased, followed by " Campus" |
| HousingPage.DropDashes | frontend/src/app/campus/housing/page.tsx:73 | a suffix of the text that does not start with a dash |
| HousingPage.CollapseDashes | frontend/src/app/campus/housing/page.tsx:73 | never longer, same first character, no two dashes in a row, and no white space introduced |
| HousingPage.SlugIsClean | frontend/src/app/campus/housing/page.tsx:70-73 | a building's image file name holds no white space and no doubled dash |
| HousingPage.Card | frontend/src/app/campus/housing/page.tsx:67-76 | the card carries the building's id, name, description and floors, and its image path |
| HousingPage.Cards | frontend/src/app/campus/housing/page.tsx:67-76 | one card per building, position by position |
| HousingPage.FindCampus | frontend/src/app/campus/housing/page.tsx:78-80 | nothing exactly when no group has the campus; otherwise the index of a group with it |
| HousingPage.PlaceStep | frontend/src/app/campus/housing/page.tsx:78-90 | placing one more building keeps the groups in first-appearance order, each holding its buildings' cards in order |
| HousingPage.OrganizeByCampus | frontend/src/app/campus/housing/page.tsx:60-93 | the campuses come in order of first appearance, each holding exactly its buildings' cards in input order |
| HousingPage.PlacedOnce | frontend/src/app/campus/housing/page.tsx:60-93 | every building is in the group of its campus, and no campus has two groups |
| HousingPage.Page.constructor | frontend/src/app/campus/housing/page.tsx:32-34 | no groups, loading, no error |
| HousingPage.Page.FetchHousingData | frontend/src/app/campus/housing/page.tsx:37-105 | without a user nothing is fetched and loading stops; a reply is grouped by campus; a failure sets the error message; loading always ends |
| ForumReviewModal.StarLit | frontend/src/components/open-forum/ReviewModal.tsx:45 | with a star hovered, exactly the stars up to it are lit; with none hovered, exactly those up to the rating |
| ForumReviewModal.RatingsRecord | frontend/src/components/open-forum/ReviewModal.tsx:84-90 | the record has a question exactly when some custom rating names it, and holds the last rating given for it |
| ForumReviewModal.ZeroRatings | frontend/src/components/open-forum/ReviewModal.tsx:124-129 | every custom question, and only those, starts at 0 |
| ForumReviewModal.AnyUnrated | frontend/src/components/open-forum/ReviewModal.tsx:173-178 | true exactly when some question has no rating or a rating of 0 |
| ForumReviewModal.RatingsArray | frontend/src/components/open-forum/ReviewModal.tsx:188-192 | one entry per question, in question order, with its rating or 0 when missing |
| ForumReviewModal.Submit | frontend/src/components/open-forum/ReviewModal.tsx:146-229 | the expiry alert when the rating deadline has passed, then the overall, would-repeat and custom-question alerts in that order; a request exactly when all pass, carrying the form's body, PUT to the review when editing and POST to the event otherwise |
| ForumReviewModal.SentRatingsAreGiven | frontend/src/components/open-forum/ReviewModal.tsx:173-192 | a request carries, for every custom question in order, the non-zero rating the form holds; the 0 fallback is never sent |
| ForumReviewModal.Modal.constructor | frontend/src/components/open-forum/ReviewModal.tsx:64-72 | no event details, zero ratings, no custom ratings, not anonymous, empty content, not submitting |
| ForumReviewModal.Modal.Open | frontend/src/components/open-forum/ReviewModal.tsx:74-100 | an existing review's fields are copied, its custom ratings only when it has them; without a review every field is reset |
| ForumReviewModal.Modal.EventDetailsLoaded | frontend/src/components/open-forum/ReviewModal.tsx:116-133 | the details are stored; the questions start at 0 exactly when there are some and the review brought no ratings of its own |
| ForumReviewModal.Modal.HandleCustomRatingChange | frontend/src/components/open-forum/ReviewModal.tsx:139-144 | only that question's rating changes |
| ForumReviewModal.Modal.HandleSubmit | frontend/src/components/open-forum/ReviewModal.tsx:146-185 | the outcome is the submission rule on the form's state, and the form is marked as submitting exactly when a request goes out |
| CourseReviewForm.SetRating | frontend/src/components/courses/Review.tsx:42-61 | the chosen category takes the value and the other two are kept |
| CourseReviewForm.StarLit | frontend/src/components/courses/Review.tsx:262-267 | a star is lit exactly when the rating or the hovered star reaches it |
| CourseReviewForm.DigitPrefix | frontend/src/components/courses/Review.tsx:200 | the longest all-digit prefix, the digits `parseInt` reads |
| CourseReviewForm.ParseNoDigits | frontend/src/components/courses/Review.tsx:200 | hours without a single digit are sent as NaN |
| CourseReviewForm.ParseShownNumber | frontend/src/components/courses/Review.tsx:77-200 | the hours a stored review shows come back unchanged through `parseInt` |
| CourseReviewForm.ShownHours | frontend/src/components/courses/Review.tsx:77-81 | the hours field is empty exactly when the stored hours are 0 |
| CourseReviewForm.Validate | frontend/src/components/courses/Review.tsx:152-173 | one error per failed check: each star unchosen, empty hours, a missing course when opened from an instructor page, a missing instructor when opened from a course page, a blank comment |
| CourseReviewForm.ValidateMessages | frontend/src/components/courses/Review.tsx:155-173 | each error carries the message of its own check |
| CourseReviewForm.Submit | frontend/src/components/courses/Review.tsx:149-221 | some error exactly when the submission stops with those errors; a request carries the user's email, the parsed hours, the pair taken from the entry point and the form's selection, and is PATCHed to the review when editing or POSTed to the course otherwise |
| CourseReviewForm.SentPairIsComplete | frontend/src/components/courses/Review.tsx:149-207 | a request always carries three chosen stars, a comment, and the pair's entry-point side and selected side |
| CourseReviewForm.Form.constructor | frontend/src/components/courses/Review.tsx:12-99 | an existing review fills the stars, the hours, the comment and the pair by entry point; a new review preselects the entry point only |
| CourseReviewForm.Form.HandleStarClick | frontend/src/components/courses/Review.tsx:42-47 | only the clicked category's rating changes |
| CourseReviewForm.Form.HandleStarHover | frontend/src/components/courses/Review.tsx:49-54 | only the hovered category's highlight changes |
| CourseReviewForm.Form.HandleStarHoverOut | frontend/src/components/courses/Review.tsx:56-61 | only that category's highlight is cleared |
| CourseReviewForm.Form.HandleSubmit | frontend/src/components/courses/Review.tsx:149-178 | the outcome is the submission rule on the form's state; the errors are shown exactly when there are some |
| HousingReviewForm.SetRating | frontend/src/components/housing/Reviews.tsx:26-45 | the chosen category takes the value and the other three are kept |
| HousingReviewForm.InitialRatings | frontend/src/components/housing/Reviews.tsx:12-17 | a review's own four ratings, or none chosen without a review |
| HousingReviewForm.StoredPictureUrls | frontend/src/components/housing/Reviews.tsx:59-67 | one address per stored picture, in order, each the picture prefix followed by the name |
| HousingReviewForm.StoredPictureNamed | frontend/src/components/housing/Reviews.tsx:63-65 | each address starts with the prefix and names its picture |
| HousingReviewForm.PreviewUrls | frontend/src/components/housing/Reviews.tsx:79-85 | one browser address per chosen file, in order |
| HousingReviewForm.Validate | frontend/src/components/housing/Reviews.tsx:91-102 | one error per failed check: each of the four stars unchosen, a blank comment |
| HousingReviewForm.PictureEntries | frontend/src/components/housing/Reviews.tsx:133-137 | one "pictures" entry per chosen file, in order |
| HousingReviewForm.FormData | frontend/src/components/housing/Reviews.tsx:125-137 | the four ratings as text, the comment and the sender's email in that order, then every chosen file |
| HousingReviewForm.RatingTextRoundTrip | frontend/src/components/housing/Reviews.tsx:126-129 | a rating sent as text reads back as the same number |
| HousingReviewForm.Submit | frontend/src/components/housing/Reviews.tsx:88-148 | some error exactly when the submission stops with those errors; a failed user lookup ends in the error alert; a request carries the form data, PATCHed to the review when editing or POSTed to the building and room otherwise |
| HousingReviewForm.SentReviewIsComplete | frontend/src/components/housing/Reviews.tsx:88-148 | a request always carries four chosen ratings, a comment and every chosen file |
| HousingReviewForm.Form.constructor | frontend/src/components/housing/Reviews.tsx:12-70 | the review's ratings and comment and one address per stored picture; a new form has none chosen and no addresses |
| HousingReviewForm.Form.HandleStarClick | frontend/src/components/housing/Reviews.tsx:26-31 | only the clicked category's rating changes |
| HousingReviewForm.Form.HandleStarHover | frontend/src/components/housing/Reviews.tsx:33-38 | only the hovered category's highlight changes |
| HousingReviewForm.Form.HandleStarHoverOut | frontend/src/components/housing/Reviews.tsx:40-45 | only that category's highlight is cleared |
| HousingReviewForm.Form.HandlePicturesChange | frontend/src/components/housing/Reviews.tsx:76-86 | the chosen files are stored and the previews become one browser address each, or none without files |
| HousingReviewForm.Form.HandleSubmit | frontend/src/components/housing/Reviews.tsx:88-107 | the outcome is the submission rule on the form's state; the errors are shown exactly when there are some |
| CourseReview.ValidateAsWritten | frontend/src/components/courses/CourseReview.tsx:104-120 | the checks as written: the hours error is never raised, and every other error exactly when its check fails |
| CourseReview.EmptyHoursAcceptedAsWritten | frontend/src/components/courses/CourseReview.tsx:113-115 | with every star chosen and a comment, empty hours pass the checks as written but fail the intended ones |
| CourseReview.Validate | frontend/src/components/courses/CourseReview.tsx:104-120 | one error per failed check: each star unchosen, empty hours, a blank comment |
| CourseReview.ValidateExtendsAsWritten | frontend/src/components/courses/CourseReview.tsx:104-120 | the checks as written are the intended ones without the hours check |
| CourseReview.Submit | frontend/src/components/courses/CourseReview.tsx:101-165 | some error exactly when the submission stops with those errors; a failed user lookup ends in the error alert; a request carries the email and the hours as typed, an instructor exactly when one was chosen, and is PATCHed to the review or POSTed to the course |
| CourseReview.SentReviewIsComplete | frontend/src/components/courses/CourseReview.tsx:101-151 | a request always carries three chosen stars, some hours and a comment |
| CourseReview.Form.constructor | frontend/src/components/courses/CourseReview.tsx:14-76 | an existing review fills the stars, the hours, the instructor id as text and the comment; a new form is empty |
| CourseReview.Form.HandleStarClick | frontend/src/components/courses/CourseReview.tsx:32-37 | only the clicked category's rating changes |
| CourseReview.Form.HandleStarHover | frontend/src/components/courses/CourseReview.tsx:39-44 | only the hovered category's highlight changes |
| CourseReview.Form.HandleStarHoverOut | frontend/src/components/courses/CourseReview.tsx:46-51 | only that category's highlight is cleared |
| CourseReview.Form.HandleSubmit | frontend/src/components/courses/CourseReview.tsx:101-125 | the outcome is the intended submission rule on the form's state; the errors are shown exactly when there are some |
| ForumDashboard.EditQuestion | frontend/src/components/ui/ForumDashboard.tsx:644-648 | the list keeps its length, the typed entry takes the text and every other entry is kept |
| ForumDashboard.WithoutIndexMeaning | frontend/src/components/ui/ForumDashboard.tsx:654-658 | the filter removes exactly the entry at the index and keeps the rest in order; an index outside the list removes nothing |
| ForumDashboard.AddQuestion | frontend/src/components/ui/ForumDashboard.tsx:670 | the list with one empty question appended |
| ForumDashboard.AddThenRemoveRestores | frontend/src/components/ui/ForumDashboard.tsx:654-670 | adding a question and removing it again gives back the list |
| ForumDashboard.ResetForm | frontend/src/components/ui/ForumDashboard.tsx:138-146 | every field is emptied, the Engage link included, except the staff host |
| ForumDashboard.ResetIdempotent | frontend/src/components/ui/ForumDashboard.tsx:138-146 | resetting twice is resetting once |
| ForumDashboard.SaveRequest | frontend/src/components/ui/ForumDashboard.tsx:179-209 | no request exactly when a date cannot be converted; otherwise PUT to the selected event or POST to the list, with the converted dates, the questions, and the staff host and Engage link exactly when they are set |
| ForumDashboard.ResetUnlinksEngage | frontend/src/components/ui/ForumDashboard.tsx:138-200 | after a reset the saved event is not linked to Engage, has no questions, and still carries the host chosen before |
| ForumDashboard.Dashboard.constructor | frontend/src/components/ui/ForumDashboard.tsx:11-29 | the list view with nothing selected, no popup, and an empty form |
| ForumDashboard.Dashboard.AddNewEvent | frontend/src/components/ui/ForumDashboard.tsx:288-295 | a reset form that creates, with nothing selected |
| ForumDashboard.Dashboard.SelectEvent | frontend/src/components/ui/ForumDashboard.tsx:313-317 | the choice is selected, and a real choice opens the editor |
| ForumDashboard.Dashboard.EventLoaded | frontend/src/components/ui/ForumDashboard.tsx:92-102 | the form shows the loaded event, its dates converted for the inputs |
| ForumDashboard.Dashboard.Back | frontend/src/components/ui/ForumDashboard.tsx:383-388 | the list view again, nothing selected, the form reset |
| ForumDashboard.Dashboard.OpenEngageImport | frontend/src/components/ui/ForumDashboard.tsx:361-364 | the popup opens and starts loading; nothing else changes |
| ForumDashboard.Dashboard.ImportEngageEvent | frontend/src/components/ui/ForumDashboard.tsx:475-498 | the Engage event's link, name, description, location and start fill the form, and the popup closes |
| ForumDashboard.Dashboard.EditCustomQuestion | frontend/src/components/ui/ForumDashboard.tsx:644-648 | only the typed question changes |
| ForumDashboard.Dashboard.RemoveCustomQuestion | frontend/src/components/ui/ForumDashboard.tsx:654-658 | only that question is removed |
| ForumDashboard.Dashboard.AddCustomQuestion | frontend/src/components/ui/ForumDashboard.tsx:670 | an empty question is appended |
| ForumDashboard.Dashboard.ChooseStaffHost | frontend/src/components/ui/ForumDashboard.tsx:685-690 | the host is set, and a real choice switches to editing |
| ForumDashboard.Dashboard.Save | frontend/src/components/ui/ForumDashboard.tsx:179-225 | the request is the save rule on the form; an accepted save resets the form and shows the list, and anything else leaves the state |
| ForumDashboard.Dashboard.Delete | frontend/src/components/ui/ForumDashboard.tsx:148-177 | a DELETE address exactly when confirmed, naming the selected event; a successful delete resets like a save |

## Left out

### I/O and infrastructure

- Database I/O is not modelled. Every Mongo/Mongoose call is a read or write of an in-memory table. A Mongo transaction is one atomic step, and interleavings of concurrent requests are not modelled.
- GridFS, axios/fetch, SAML/passport and the session store are not modelled. Their results are parameters.
- The frontend's network round trips are not modelled. A form's `fetch` becomes the request it would send (method, URL, payload), as an outcome value.
- The SAML test-metadata route and `GET /users` carry no rule, so they are not modelled.
- The `GET /` listings of both page routers carry no rule, so they are not modelled.
- `POST /:id/comment` in the forum routes is not modelled. Only rating admission and comment visibility are.

### Time, randomness, numbers and text

- Dates are integer milliseconds. `toISOString`, `toLocaleString`, `toDatetimeLocal`, moment formatting and `URL.createObjectURL` become function parameters or are not modelled.
- `Math.random` in `shuffleArray` is not modelled. The shuffle result is an arbitrary permutation of its input.
- Floating-point averages, `toFixed` and the percentages in the migration reports are not modelled. Where a ratio is needed, a real number stands in for the float.
- `localeCompare` is modelled as code-point order on strings.
- `IsSpace` stands in for JavaScript's `\s` and for the character set of `trim`.
- No Unicode case mapping beyond ASCII is modelled.
- Ids are `Option<int>`, so the JavaScript falsiness of an id equal to 0 is not modelled.
- `work_per_week` is an integer.

### Migrations and services

- The migrations' post-run queries, console reports, averages and percentages are not modelled.
- InstructorsMigrate.MigrationCounts: every write is taken to succeed. A write that throws in the source is caught, counted under `errors` and leaves that instructor out of the updated or created counts; the model has no such path.
- InstructorsMigrate.CreateAllAt: the same assumption. When a creation throws in the source, `nextId` does not advance, so the next creation takes that id.
- InstructorsMigrate.MatchAllLookup: the same assumption. When an update throws in the source, its entry stays in the lookup, and the second step then creates it as a new instructor.
- InstructorToCourse.RunAllCounts: every course write is taken to succeed, so the `errors` counter of the catch stays out of the model.
- InstructorToCourse.MigrationCounts: the same assumption.
- UpdateReviews.RunAllBuckets: the `Error` bucket is the missing course or instructor only. A write that throws in the source is also counted there, in place of the mapped count; the model has no such path.
- UpdateReviews.MigrationBuckets: the same assumption.
- RefactorCourseSlug.PlanCounts: every update and delete is taken to succeed; the `errors` counter of the catch is not modelled.
- `UpdateCourses`: the API fetches are not modelled. The global maps that accumulate across calls are also not modelled, so classification starts from empty maps.
- UpdateCourses.ApplyEntryShape: the `required` check of the course schema is modelled, but not its unique index on `code_slug` and not the `trim` setter on `code`. Two new codes whose whitespace runs differ, such as "A B" and "A  B", get the same slug; the second save fails in the source, where the model creates it. A code with leading or trailing white space is stored trimmed by the source, and found again by the trimmed filter; the model stores it as given.
- UpdateCourses.ApplyAllStore: inherits the slug-index and trim gaps of ApplyEntryShape.
- `AuthRoutes.UserTable.CurrentUser`: the duplicate-key retry (error code 11000) is not modelled. That path only arises between concurrent requests, and requests are taken one at a time.
- `EngageEvents`:
  - The axios call and its error rethrow are not modelled.
  - `NODE_ENV` becomes a `production` parameter.
  - Times stay in milliseconds.
  - The production shift is 7 hours, as the code computes it, although the comment beside it says 8.

### Data-model assumptions

- `Forum`: the forum schema defines no `ratings` list and no `hasUserRated` on events. The intended model gives an event a ratings list, and reads `hasUserRated` as "some rating carries the user's id". What the route does as written is under "## Findings".
- `BallotSection.Ballot.constructor` requires distinct candidate ids because the ids are unique database `_id`s.
- `VotePage`:
  - The mocked candidate list becomes the `Load` parameter.
  - The modal and button UI, the confirm step and `isSubmitted` are not modelled.

### Frontend widgets

- `EventsDashboard`: past means `eventDate <= now`, while `OpenForumPage` uses `eventDate < now`. Both follow their code.
- `EventsDashboard`: the per-event stats fetch is modelled only by its result (`Loaded(withStats)`), and the loading flag is not modelled.
- `CoursesPage`: the outer `catch` of `fetchInstructors` and the search debounce are not modelled.
- `CoursesPage`: the fetched course and instructor lists are not modelled, and the click-outside test is a boolean.
- `ForumReviewModal`: alerts and a server failure after the request is sent are not modelled.
- `CourseReview`: `formErrors.workPerWeek` is never displayed by the form, so the model does not model its display.
- `HousingPage`: the `authLoading` gate of the fetch is not modelled, and the route's `id` is named `building`.
- `Header`: the scroll lock of the mobile menu is not modelled. The `catch` path of the pages fetch is modelled for a missing header, in `Header.FetchPagesAsWritten`; a failed network round trip is not.
- `HomepageEvents.Carousel.HandleNext` requires a non-empty event list, because the buttons exist only then.
- `ForumDashboard.Dashboard.EditCustomQuestion` requires an in-range index, because the form renders one input per existing question.
- `ForumDashboard.Dashboard.ImportEngageEvent` takes one `toLocal` parameter in place of `toISOString` followed by `toDatetimeLocal`.
- `window.scrollTo` and `location.reload` are not modelled.
- The Engage fetch effect of the open-forum pages is modelled only through its popup flags.

### Mongoose casts and setters, regular expressions and plain objects

- The model follows Mongoose 7 and later (bson 5 and later), which the connection code's option-less `mongoose.connect` implies. Mongoose casts a 24-digit hex id given as text to an object id before it compares or stores it, so the case of the hex digits does not matter there. The model compares ids as text and takes stored ids as they are. It does model the cast failure: an id that is not 24 hex digits gets the status of the handler's catch, in the voting, election-admin and forum handlers and in the write-in lookup.
- The `lowercase` and `trim` setters of the schemas apply to stored values, to updates and to query filters. The model stores and compares the text as given. The affected fields are the user email (People.ts), the ballot-info email (Voting.ts) and the page fields (PageContent.ts).
- FindInfo: the (election, email) match is on the raw text, not on the cast id and the lower-cased email.
- GetBallot: the lookup compares the raw election id and email. A session email that differs in case from the stored record gives 404 in the model, where the source finds the record.
- ByPosition: compares the election id as text, where the query casts it.
- BallotMembership: inherits the raw election-id comparison of ByPosition.
- Ranked: matches ranked ids as text. A stored candidate's id written in upper-case hex is found by the source and not by the model.
- IsValidBallotMeaning: inherits the raw-id match of Ranked, so it rejects a ballot of upper-case ids that the source accepts.
- AllRankedFound: states the count over the raw-id match.
- FirstInvalid: uses the raw-id IsValidBallot.
- CheckBallots: uses the raw-id IsValidBallot.
- OpenBallot: matches the raw email, where the setter lower-cases the filter.
- VoteDocs: keeps each ranked id as given, where the source stores the cast object id (lower-case hex).
- RecordOutcome: inherits the raw id and email comparisons above.
- UnregisteredCannotVote: "unregistered" means no record with the raw email. A student whose email differs only in case is refused by the model and votes in the source.
- RecordVotes: inherits the raw id and email comparisons of Record. It records under the voting rules; what the multikey vote index does to a submission is under "## Findings".
- UpdateElection: looks the election up by the raw id text.
- DeleteElection: looks the election up by the raw id text.
- ListCandidatesSorted: looks the election and its candidates up by the raw id text.
- UpdateCandidate: matches both filter ids as text.
- DeleteCandidate: matches both filter ids as text.
- Populate: stores each email as given, where the schema lower-cases it.
- PopulateRecords: the same missing lower-casing.
- PopulateUnique: uniqueness is per raw email. "Bob@x" and "bob@x" collide on the unique index in the source, and the model stores both.
- FindByEmail: matches the raw email. The query's setters would find "Alice@x.edu" as "alice@x.edu".
- NewUser: stores the email untrimmed and not lower-cased.
- CurrentUser: finds or creates per raw email, so a session email that differs in case creates a second user in the model.
- CurrentUserCreatesOnce: "once" holds per raw email, not per lower-cased email.
- NewPage: stores the fields untrimmed, and a header of spaces alone passes, where the trimmed `required` header fails in the source.
- ApplyUpdate: update values are not trimmed.
- LegacyNewPage: stores the fields untrimmed.
- LegacyApplyUpdate: update values are not trimmed.
- Create: the duplicate test is on the raw id. " a" after "a" is a duplicate key in the source (500), and a blank header fails `required` (500); the model answers 201 to both.
- Update: the missing trim on updates.
- LegacyCreate: the missing trim.
- LegacyUpdate: the missing trim.
- FindByNameIgnoringCase: the write-in lookup builds a regular expression from the names without escaping them. The model compares the names case-insensitively as plain text. A name such as "C++ Fan" makes the source throw (500), "a+b c" does not match its own stored record, and "J.R. Smith" also matches "JxRx Smith".
- WriteInOutcome: inherits the plain-text lookup. For a name that is not a valid regular expression, the source answers 500 and the model creates the write-in.
- WriteInIdempotent: holds of the plain-text lookup only. In the source, a name whose regular expression does not match itself is created again on a repeat.
- FindAppended: holds of the plain-text lookup only.
- CreateWriteInCandidate: inherits the plain-text lookup.
- Push: the header groups are a map. The source's plain object inherits members such as "constructor" and "__proto__". A header that lower-cases to one of them reads an inherited value, so `.push` throws and the catch files no pages. The model files them.
- FileStep: the same inherited-key gap.
- OrganizePages: the same inherited-key gap.
- FetchPages: for such a header the source's catch files no pages.
- PagesLoaded: inherits the inherited-key gap of OrganizePages.
- RatingsRecord: the custom ratings are a map. In the source they are a plain object, so a question "__proto__" is lost by the assignment, and a question such as "toString" reads an inherited function.
- ZeroRatings: the same "__proto__" assignment is lost in the source.
- AnyUnrated: a question naming an inherited member such as "toString" counts as rated in the source and unrated in the model.
- RatingsArray: for such a question the source sends the inherited value, not 0.
- Submit: for such a question the source sends the request, where the model alerts "Please rate all custom questions".
- SentRatingsAreGiven: the source can send such a question without a rating.
- Open: inherits the map gap of RatingsRecord.
- EventDetailsLoaded: inherits the map gap of ZeroRatings.
- HandleSubmit: inherits the map gap of Submit.
- Every modelled URL leaves out the `process.env.BACKEND_LINK` prefix. The request URLs and picture paths are relative to the back end.

### Where the tests and the code disagree (the model follows the code)

- The voting unit tests map year 1 to the first-year president, while `getClassRepCandidates` maps year 1 to the sophomore class president.
- The unit tests reject a ranking of more than five candidates, but `isValidBallot` has no such rule.
- The excluded-position list in the tests omits two positions that the controller also excludes.
- The auth tests expect `InResponseTo` checks that the consume route does not perform.

## Findings

| source | as written | input that shows it | evidently intended | confidence | as-written member | corrected member |
|---|---|---|---|---|---|---|
| backend/src/models/Voting.ts:43-67, backend/src/controllers/VotingController.ts:212-215 | the candidate schema has no `writeIn` path, so a created write-in is stored without its flag and the at-most-one-write-in rule of `isValidBallot` never counts one | two write-in candidates for one position, both ranked | store `writeIn` so that a ranking with two write-ins is rejected | not executed | Voting.TwoWriteInsAcceptedAsWritten | Voting.TwoWriteInsRejected |
| frontend/src/components/courses/CourseReview.tsx:113-115 | the hours check compares the string state with `null`, which it never equals, so empty hours are never reported | ratings 1, 1, 1, hours "", comments "x" | report empty hours like the other missing fields | not executed | CourseReview.EmptyHoursAcceptedAsWritten | CourseReview.Validate |
| backend/src/routes/ForumRoutes.ts:87-109, backend/src/models/Forum.ts:21-72 | the event schema defines neither `hasUserRated` nor `ratings`, so a rating request that passes the data and period checks throws and the catch answers 400 | scores 4 and 3, an empty custom list, an open period, no earlier rating | admit the rating with 201 and record it, one per user | not executed | Forum.OpenRatingRefusedAsWritten | Forum.ForumEvent.Rate |
| backend/src/routes/ForumRoutes.ts:2, backend/src/models/Forum.ts:271-278 | the routes import `EventComment`, which the models file does not export, so the comment listing throws and the catch answers 500 | any event id on GET /:id/comments | list the event's non-hidden comments | not executed | Forum.CommentsFailAsWritten | Forum.ListComments |
| backend/src/models/Voting.ts:153, backend/src/controllers/VotingController.ts:325-348 | the vote index is unique on (election, position, ranking), and `ranking` is an array, so Mongo indexes each ranked id: two vote documents of one election and position that share any ranked candidate collide, the insert throws and the transaction answers 500 | two registered students who submit the same valid ballot one after the other | one ballot per student, which the ballot-info `hasVoted` flag already enforces, with any number of votes naming the same candidate | not executed | Voting.SameBallotFailsAsWritten | Voting.RecordVotes |
| backend/src/routes/admin/PagesRoutes.ts:9, frontend/src/components/ui/Header.tsx:46-48 | the pages listing projects each page to "id name", so the header reads `toLowerCase` of a missing `header`, which throws; the catch leaves the sections as they were | one stored page the user may see, such as a page "About" under the header "About" | send each page's header with the listing, so that the visible pages are filed into their sections | not executed | Header.ListedPagesThrow | Header.FetchPages |
