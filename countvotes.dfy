/**
 * Ranked-choice tallying of one election: first-preference counts per
 * position and the instant-runoff loop that eliminates the weakest
 * candidate round by round until someone holds a majority, two equal
 * candidates tie, or one candidate is left.
 */
module CountVotes {
  import opened Util
  import opened VotingModel

  /** A stored ranking: candidate ids, most preferred first. */
  type Ranking = seq<string>

  /** `names.get(id) ?? fallback`. */
  function NameOr(names: map<string, string>, id: string, fallback: string): string {
    if id in names then names[id] else fallback
  }

  // =====================================================================
  // First preferences
  // =====================================================================

  datatype FirstPreference = FirstPreference(
    candidateId: string,
    candidateName: string,
    firstPreferenceCount: nat)

  function CountOf(e: FirstPreference): int { e.firstPreferenceCount }

  /** The leading entry of every non-empty ranking, in vote order. */
  function FirstChoices(votes: seq<Ranking>): (r: seq<string>)
    ensures |r| <= |votes|
  {
    if votes == [] then []
    else (if votes[0] != [] then [votes[0][0]] else []) + FirstChoices(votes[1..])
  }

  /** Number of votes whose ranking is not empty. */
  function NonEmptyBallots(votes: seq<Ranking>): nat {
    if votes == [] then 0 else (if votes[0] != [] then 1 else 0) + NonEmptyBallots(votes[1..])
  }

  lemma {:induction false} FirstChoicesAppend(a: seq<Ranking>, b: seq<Ranking>)
    ensures FirstChoices(a + b) == FirstChoices(a) + FirstChoices(b)
  {
    if a == [] {
      assert a + b == b;
    } else {
      assert (a + b)[0] == a[0];
      assert (a + b)[1..] == a[1..] + b;
      FirstChoicesAppend(a[1..], b);
    }
  }

  lemma {:induction false} FirstChoicesLength(votes: seq<Ranking>)
    ensures |FirstChoices(votes)| == NonEmptyBallots(votes)
  {
    if votes != [] {
      FirstChoicesLength(votes[1..]);
    }
  }

  /** One row per id: its name (or "(unknown)") and how often it is a first choice. */
  function Entries(ids: seq<string>, firsts: seq<string>, names: map<string, string>): (r: seq<FirstPreference>)
    ensures |r| == |ids|
    ensures forall k :: 0 <= k < |ids| ==>
      r[k] == FirstPreference(ids[k], NameOr(names, ids[k], "(unknown)"), Occurrences(firsts, ids[k]))
  {
    if ids == [] then []
    else
      [FirstPreference(ids[0], NameOr(names, ids[0], "(unknown)"), Occurrences(firsts, ids[0]))]
      + Entries(ids[1..], firsts, names)
  }

  lemma {:induction false} EntriesSum(ids: seq<string>, firsts: seq<string>, names: map<string, string>)
    ensures SumKey(Entries(ids, firsts, names), CountOf) == SumOccurrences(ids, firsts)
  {
    if ids != [] {
      EntriesSum(ids[1..], firsts, names);
      assert Entries(ids, firsts, names)[1..] == Entries(ids[1..], firsts, names);
    }
  }

  /**
   * The first-preference table: one row per candidate that is some
   * ballot's first choice, in order of first appearance, then stably
   * sorted by count, highest first.
   */
  function FirstPreferenceTable(votes: seq<Ranking>, names: map<string, string>): seq<FirstPreference> {
    var firsts := FirstChoices(votes);
    SortDesc(Entries(Distinct(firsts), firsts, names), CountOf)
  }

  /** The counts in the table add up to the number of non-empty ballots. */
  lemma {:induction false} FirstPreferenceTotal(votes: seq<Ranking>, names: map<string, string>)
    ensures SumKey(FirstPreferenceTable(votes, names), CountOf) == NonEmptyBallots(votes)
  {
    var firsts := FirstChoices(votes);
    var ids := Distinct(firsts);
    SumKeySortDesc(Entries(ids, firsts, names), CountOf);
    EntriesSum(ids, firsts, names);
    SumOccurrencesAll(ids, firsts);
    FirstChoicesLength(votes);
  }

  /**
   * Every row credits a candidate with exactly the ballots that rank it
   * first, and every first choice has a row.
   */
  /** A row of the first-preference table as the tally promises it. */
  ghost predicate ReportsFirsts(p: FirstPreference, firsts: seq<string>, names: map<string, string>) {
    && p.candidateId in firsts
    && p.firstPreferenceCount == Occurrences(firsts, p.candidateId) > 0
    && p.candidateName == NameOr(names, p.candidateId, "(unknown)")
  }

  lemma FirstPreferenceRows(votes: seq<Ranking>, names: map<string, string>)
    ensures forall k :: 0 <= k < |FirstPreferenceTable(votes, names)| ==>
      ReportsFirsts(FirstPreferenceTable(votes, names)[k], FirstChoices(votes), names)
    ensures forall c :: c in FirstChoices(votes) ==>
      exists k :: 0 <= k < |FirstPreferenceTable(votes, names)| && FirstPreferenceTable(votes, names)[k].candidateId == c
  {
    var firsts := FirstChoices(votes);
    var ids := Distinct(firsts);
    var e := Entries(ids, firsts, names);
    var t := FirstPreferenceTable(votes, names);
    assert multiset(t) == multiset(e);
    forall k | 0 <= k < |t|
      ensures ReportsFirsts(t[k], firsts, names)
    {
      assert t[k] in multiset(e);
      var j :| 0 <= j < |e| && e[j] == t[k];
      assert ids[j] in ids;
    }
    forall c | c in firsts
      ensures exists k :: 0 <= k < |t| && t[k].candidateId == c
    {
      var i :| 0 <= i < |ids| && ids[i] == c;
      assert e[i] in multiset(t);
      var k :| 0 <= k < |t| && t[k] == e[i];
    }
  }

  lemma FirstChoicesSnoc(votes: seq<Ranking>, i: nat)
    requires i < |votes|
    ensures FirstChoices(votes[..i + 1]) ==
      FirstChoices(votes[..i]) + (if votes[i] != [] then [votes[i][0]] else [])
  {
    assert votes[..i + 1] == votes[..i] + [votes[i]];
    FirstChoicesAppend(votes[..i], [votes[i]]);
  }

  lemma EntriesOfCounts(order: seq<string>, firsts: seq<string>, names: map<string, string>,
                        counts: map<string, nat>, entries: seq<FirstPreference>)
    requires forall id :: id in order ==> id in counts && counts[id] == Occurrences(firsts, id)
    requires |entries| == |order|
    requires forall k :: 0 <= k < |order| ==>
      entries[k] == FirstPreference(order[k], NameOr(names, order[k], "(unknown)"), counts[order[k]])
    ensures entries == Entries(order, firsts, names)
  {
  }

  /** One pass of the counting loop: the vote at index i takes the state from votes[..i] to votes[..i + 1]. */
  method CountVoteAt(votes: seq<Ranking>, i: nat, order0: seq<string>, counts0: map<string, nat>)
    returns (order: seq<string>, counts: map<string, nat>)
    requires i < |votes|
    requires order0 == Distinct(FirstChoices(votes[..i]))
    requires forall id :: id in counts0 <==> id in order0
    requires forall id :: id in counts0 ==> counts0[id] == Occurrences(FirstChoices(votes[..i]), id)
    ensures order == Distinct(FirstChoices(votes[..i + 1]))
    ensures forall id :: id in counts <==> id in order
    ensures forall id :: id in counts ==> counts[id] == Occurrences(FirstChoices(votes[..i + 1]), id)
  {
    ghost var before := FirstChoices(votes[..i]);
    FirstChoicesSnoc(votes, i);
    if votes[i] == [] {
      assert FirstChoices(votes[..i + 1]) == before;
      return order0, counts0;
    }
    var id := votes[i][0];
    assert FirstChoices(votes[..i + 1]) == before + [id];
    order := if id in counts0 then order0 else order0 + [id];
    counts := counts0[id := (if id in counts0 then counts0[id] else 0) + 1];
    AddFirstChoice(before, id, order0, counts0, order, counts);
  }

  /** One counted first choice keeps the count map and its key order in step with the spec. */
  lemma AddFirstChoice(before: seq<string>, id: string, order0: seq<string>, counts0: map<string, nat>,
                       order: seq<string>, counts: map<string, nat>)
    requires order0 == Distinct(before)
    requires forall x :: x in counts0 <==> x in order0
    requires forall x :: x in counts0 ==> counts0[x] == Occurrences(before, x)
    requires order == if id in counts0 then order0 else order0 + [id]
    requires counts == counts0[id := (if id in counts0 then counts0[id] else 0) + 1]
    ensures order == Distinct(before + [id])
    ensures forall x :: x in counts <==> x in order
    ensures forall x :: x in counts ==> counts[x] == Occurrences(before + [id], x)
  {
    DistinctSnoc(before, id);
    OccurrencesSnoc(before, id);
  }

  /**
   * The counting loop of countFirstPreference: a Map from first choice to
   * count, whose keys keep the order of first appearance.
   */
  method CountFirstChoices(votes: seq<Ranking>) returns (order: seq<string>, counts: map<string, nat>)
    ensures order == Distinct(FirstChoices(votes))
    ensures forall id :: id in counts <==> id in order
    ensures forall id :: id in counts ==> counts[id] == Occurrences(FirstChoices(votes), id)
  {
    counts := map[];
    order := [];
    for i := 0 to |votes|
      invariant order == Distinct(FirstChoices(votes[..i]))
      invariant forall id :: id in counts <==> id in order
      invariant forall id :: id in counts ==> counts[id] == Occurrences(FirstChoices(votes[..i]), id)
    {
      order, counts := CountVoteAt(votes, i, order, counts);
    }
    assert votes[..|votes|] == votes;
  }

  /** countFirstPreference: count the first choices, then sort the rows by count. */
  method CountFirstPreference(votes: seq<Ranking>, names: map<string, string>)
    returns (result: seq<FirstPreference>)
    ensures result == FirstPreferenceTable(votes, names)
    ensures SortedDesc(result, CountOf)
    ensures SumKey(result, CountOf) == NonEmptyBallots(votes)
  {
    var order, counts := CountFirstChoices(votes);
    var entries := seq(|order|, k requires 0 <= k < |order| =>
      FirstPreference(order[k], NameOr(names, order[k], "(unknown)"), counts[order[k]]));
    EntriesOfCounts(order, FirstChoices(votes), names, counts, entries);
    result := SortDesc(entries, CountOf);
    FirstPreferenceTotal(votes, names);
  }

  // =====================================================================
  // Instant runoff
  // =====================================================================

  /** `ballot.find(id => active.has(id))`: the highest-ranked candidate still in the race. */
  function FirstActive(ballot: Ranking, active: seq<string>): (r: Option<string>)
    ensures r.Some? ==> r.value in active && r.value in ballot
    ensures r.None? <==> forall k :: 0 <= k < |ballot| ==> ballot[k] !in active
    ensures ballot != [] && ballot[0] in active ==> r == Some(ballot[0])
  {
    if ballot == [] then None
    else if ballot[0] in active then Some(ballot[0])
    else FirstActive(ballot[1..], active)
  }

  /**
   * The candidate each ballot counts for in this round, in ballot order.
   * A ballot with no active candidate counts for nobody; so does a
   * match on the empty id, which the code treats as false.
   */
  function ActiveChoices(ballots: seq<Ranking>, active: seq<string>): (r: seq<string>)
    ensures |r| <= |ballots|
    ensures forall k :: 0 <= k < |r| ==> r[k] in active
  {
    if ballots == [] then []
    else
      var f := FirstActive(ballots[0], active);
      (if f.Some? && f.value != "" then [f.value] else []) + ActiveChoices(ballots[1..], active)
  }

  lemma {:induction false} ActiveChoicesAppend(a: seq<Ranking>, b: seq<Ranking>, active: seq<string>)
    ensures ActiveChoices(a + b, active) == ActiveChoices(a, active) + ActiveChoices(b, active)
  {
    if a == [] {
      assert a + b == b;
    } else {
      assert (a + b)[0] == a[0];
      assert (a + b)[1..] == a[1..] + b;
      ActiveChoicesAppend(a[1..], b, active);
    }
  }

  /** Votes credited to c in a round with the given active candidates. */
  function RoundCount(ballots: seq<Ranking>, active: seq<string>, c: string): nat {
    Occurrences(ActiveChoices(ballots, active), c)
  }

  function RoundCounts(ballots: seq<Ranking>, active: seq<string>): map<string, nat> {
    map c | c in active :: RoundCount(ballots, active, c)
  }

  /** `counts.get(id) ?? 0`. */
  function Get(m: map<string, nat>, id: string): int {
    if id in m then m[id] else 0
  }

  function KeyOf(m: map<string, nat>): string -> int {
    c => Get(m, c)
  }

  /** In every round the counts add up to at most the number of ballots. */
  lemma {:induction false} RoundCountsBounded(ballots: seq<Ranking>, active: seq<string>)
    requires NoDup(active)
    ensures SumOccurrences(active, ActiveChoices(ballots, active)) == |ActiveChoices(ballots, active)| <= |ballots|
  {
    SumOccurrencesAll(active, ActiveChoices(ballots, active));
  }

  /** No two candidates can hold a majority of the ballots in the same round. */
  lemma MajorityUnique(ballots: seq<Ranking>, active: seq<string>, a: string, b: string)
    requires NoDup(active) && a in active && b in active && a != b
    ensures RoundCount(ballots, active, a) + RoundCount(ballots, active, b) <= |ballots|
    ensures !(RoundCount(ballots, active, a) >= |ballots| / 2 + 1 && RoundCount(ballots, active, b) >= |ballots| / 2 + 1)
  {
    RoundCountsBounded(ballots, active);
    TwoOccurrencesLeSum(active, ActiveChoices(ballots, active), a, b);
  }

  /** What one round of the loop decides. */
  datatype Step = Elect(winner: string) | Tied(order: seq<string>) | Eliminate(loser: string)

  /** The active candidates stably sorted by this round's count, highest first. */
  function RoundOrder(ballots: seq<Ranking>, active: seq<string>): seq<string> {
    SortDesc(active, KeyOf(RoundCounts(ballots, active)))
  }

  /** One pass of the runoff loop body for at least two active candidates. */
  function Round(ballots: seq<Ranking>, active: seq<string>): (s: Step)
    requires NoDup(active) && |active| > 1
    ensures s.Eliminate? ==> s.loser in active
  {
    var counts := RoundCounts(ballots, active);
    var sorted := RoundOrder(ballots, active);
    var total := |ballots|;
    var majority := total / 2 + 1;
    var leaderCount := Get(counts, sorted[0]);
    if leaderCount >= majority then Elect(sorted[0])
    else
      var lastCount := Get(counts, sorted[|sorted| - 1]);
      var secondLastCount := if |sorted| >= 2 then Get(counts, sorted[|sorted| - 2]) else -1;
      if |active| == 2 && lastCount == secondLastCount && lastCount == leaderCount then Tied(sorted)
      else
        assert sorted[|sorted| - 1] in multiset(active);
        Eliminate(sorted[|sorted| - 1])
  }

  /** The sorted order holds exactly the active candidates, the leader first. */
  lemma RoundOrderFacts(ballots: seq<Ranking>, active: seq<string>)
    requires |active| > 0
    ensures var sorted := RoundOrder(ballots, active);
      && |sorted| == |active|
      && (forall j :: 0 <= j < |sorted| ==>
            sorted[j] in active && Get(RoundCounts(ballots, active), sorted[j]) == RoundCount(ballots, active, sorted[j]))
      && (forall c :: c in active ==> c in sorted && RoundCount(ballots, active, c) <= RoundCount(ballots, active, sorted[0]))
  {
    var key := KeyOf(RoundCounts(ballots, active));
    var sorted := RoundOrder(ballots, active);
    SortDescMembers(active, key);
    forall c | c in active
      ensures RoundCount(ballots, active, c) <= RoundCount(ballots, active, sorted[0])
    {
      var j :| 0 <= j < |sorted| && sorted[j] == c;
      if j > 0 {
        assert key(sorted[0]) >= key(sorted[j]);
      }
    }
  }

  /**
   * A candidate is elected in a round iff some active candidate holds
   * floor(total/2)+1 of all ballots (exhausted ones included), and the
   * one elected is such a candidate.
   */
  lemma RoundElect(ballots: seq<Ranking>, active: seq<string>)
    requires NoDup(active) && |active| > 1
    ensures var s := Round(ballots, active);
      && (s.Elect? <==> exists c :: c in active && RoundCount(ballots, active, c) >= |ballots| / 2 + 1)
      && (s.Elect? ==> s.winner in active && RoundCount(ballots, active, s.winner) >= |ballots| / 2 + 1)
  {
    RoundOrderFacts(ballots, active);
  }

  /**
   * A tie is declared iff exactly two candidates remain with equal
   * counts; it lists both of them.
   */
  lemma {:induction false} RoundTie(ballots: seq<Ranking>, active: seq<string>)
    requires NoDup(active) && |active| > 1
    ensures var s := Round(ballots, active);
      && (s.Tied? <==> |active| == 2 && RoundCount(ballots, active, active[0]) == RoundCount(ballots, active, active[1]))
      && (s.Tied? ==> |s.order| == 2 && s.order[0] in active && s.order[1] in active && s.order[0] != s.order[1])
  {
    var sorted := RoundOrder(ballots, active);
    var s := Round(ballots, active);
    RoundOrderFacts(ballots, active);
    if |active| == 2 {
      assert active[0] in sorted && active[1] in sorted;
      if RoundCount(ballots, active, active[0]) == RoundCount(ballots, active, active[1]) {
        MajorityUnique(ballots, active, active[0], active[1]);
      }
    }
  }

  /**
   * Otherwise the eliminated candidate has the fewest votes and, among
   * those with that count, comes last in candidate order.
   */
  lemma {:induction false} RoundEliminate(ballots: seq<Ranking>, active: seq<string>)
    requires NoDup(active) && |active| > 1
    requires Round(ballots, active).Eliminate?
    ensures var k := LastMinIndex(active, KeyOf(RoundCounts(ballots, active)));
      && Round(ballots, active).loser == active[k]
      && (forall j :: 0 <= j < |active| ==> RoundCount(ballots, active, active[k]) <= RoundCount(ballots, active, active[j]))
      && (forall j :: k < j < |active| ==> RoundCount(ballots, active, active[j]) > RoundCount(ballots, active, active[k]))
  {
    var key := KeyOf(RoundCounts(ballots, active));
    var k := LastMinIndex(active, key);
    SortDescLast(active, key);
    assert Round(ballots, active).loser == RoundOrder(ballots, active)[|active| - 1];
    forall j | 0 <= j < |active|
      ensures key(active[j]) == RoundCount(ballots, active, active[j])
    {
    }
  }

  datatype RunoffResult = NoResult | Winner(name: string) | Tie(names: seq<string>)

  /** `ids.map(id => names.get(id) ?? id)`. */
  function NamesOf(ids: seq<string>, names: map<string, string>): (r: seq<string>)
    ensures |r| == |ids|
    ensures forall k :: 0 <= k < |ids| ==> r[k] == NameOr(names, ids[k], ids[k])
  {
    if ids == [] then [] else [NameOr(names, ids[0], ids[0])] + NamesOf(ids[1..], names)
  }

  /** The runoff from a given set of active candidates (in insertion order). */
  function Runoff(ballots: seq<Ranking>, active: seq<string>, names: map<string, string>): RunoffResult
    requires NoDup(active)
    decreases |active|
  {
    if |active| <= 1 then
      (if |active| == 1 && active[0] != "" then Winner(NameOr(names, active[0], active[0])) else NoResult)
    else
      match Round(ballots, active)
        case Elect(c) => Winner(NameOr(names, c, c))
        case Tied(order) => Tie(NamesOf(order, names))
        case Eliminate(c) =>
          RemoveMemberLength(active, c);
          Runoff(ballots, Remove(active, c), names)
  }

  /** runInstantRunoff: nothing without votes or candidates, else the runoff over the distinct candidates. */
  function InstantRunoff(votes: seq<Ranking>, candidateIds: seq<string>, names: map<string, string>): RunoffResult {
    if |votes| == 0 || |candidateIds| == 0 then NoResult
    else Runoff(votes, Distinct(candidateIds), names)
  }

  /** A runoff winner is one of the active candidates. */
  lemma {:induction false} RunoffWinner(ballots: seq<Ranking>, active: seq<string>, names: map<string, string>)
    requires NoDup(active)
    requires Runoff(ballots, active, names).Winner?
    ensures exists c :: c in active && Runoff(ballots, active, names).name == NameOr(names, c, c)
    decreases |active|
  {
    if |active| > 1 {
      var s := Round(ballots, active);
      if s.Eliminate? {
        var rest := Remove(active, s.loser);
        RemoveMemberLength(active, s.loser);
        assert Runoff(ballots, active, names) == Runoff(ballots, rest, names);
        RunoffWinner(ballots, rest, names);
      }
    }
  }

  /** A runoff tie is between exactly two distinct active candidates. */
  lemma {:induction false} RunoffTie(ballots: seq<Ranking>, active: seq<string>, names: map<string, string>)
    requires NoDup(active)
    requires Runoff(ballots, active, names).Tie?
    ensures exists a, b ::
      && a in active && b in active && a != b
      && Runoff(ballots, active, names).names == [NameOr(names, a, a), NameOr(names, b, b)]
    decreases |active|
  {
    var s := Round(ballots, active);
    if s.Eliminate? {
      var rest := Remove(active, s.loser);
      RemoveMemberLength(active, s.loser);
      assert Runoff(ballots, active, names) == Runoff(ballots, rest, names);
      RunoffTie(ballots, rest, names);
    } else {
      RoundTie(ballots, active);
      var order := s.order;
      assert Runoff(ballots, active, names).names
        == [NameOr(names, order[0], order[0]), NameOr(names, order[1], order[1])];
    }
  }

  /** With candidates, none of them with the empty id, the runoff always decides something. */
  lemma {:induction false} RunoffDecides(ballots: seq<Ranking>, active: seq<string>, names: map<string, string>)
    requires NoDup(active) && |active| > 0 && "" !in active
    ensures !Runoff(ballots, active, names).NoResult?
    decreases |active|
  {
    if |active| > 1 {
      var s := Round(ballots, active);
      if s.Eliminate? {
        var rest := Remove(active, s.loser);
        RemoveMemberLength(active, s.loser);
        assert Runoff(ballots, active, names) == Runoff(ballots, rest, names);
        RunoffDecides(ballots, rest, names);
      }
    }
  }

  /** A counted ballot adds one to its candidate's count. */
  lemma AddActiveChoice(ballots: seq<Ranking>, j: nat, active: seq<string>, counts: map<string, nat>)
    requires j < |ballots|
    requires forall c :: c in counts <==> c in active
    requires forall c :: c in counts ==> counts[c] == Occurrences(ActiveChoices(ballots[..j], active), c)
    ensures var f := FirstActive(ballots[j], active);
      var counts' := if f.Some? && f.value != "" then counts[f.value := Get(counts, f.value) + 1] else counts;
      && (forall c :: c in counts' <==> c in active)
      && (forall c :: c in counts' ==> counts'[c] == Occurrences(ActiveChoices(ballots[..j + 1], active), c))
  {
    var before := ActiveChoices(ballots[..j], active);
    assert ballots[..j + 1] == ballots[..j] + [ballots[j]];
    ActiveChoicesAppend(ballots[..j], [ballots[j]], active);
    var f := FirstActive(ballots[j], active);
    if f.Some? && f.value != "" {
      assert ActiveChoices([ballots[j]], active) == [f.value];
      OccurrencesSnoc(before, f.value);
    } else {
      assert ActiveChoices([ballots[j]], active) == [];
      assert before + [] == before;
    }
  }

  /** The counting part of one round: zero for every active id, then one per ballot. */
  method CountRound(ballots: seq<Ranking>, active: seq<string>) returns (counts: map<string, nat>)
    ensures counts == RoundCounts(ballots, active)
  {
    counts := map[];
    for k := 0 to |active|
      invariant forall c :: c in counts <==> c in active[..k]
      invariant forall c :: c in counts ==> counts[c] == 0
    {
      counts := counts[active[k] := 0];
    }
    assert active[..|active|] == active;
    assert ballots[..0] == [];
    for j := 0 to |ballots|
      invariant forall c :: c in counts <==> c in active
      invariant forall c :: c in counts ==> counts[c] == Occurrences(ActiveChoices(ballots[..j], active), c)
    {
      AddActiveChoice(ballots, j, active, counts);
      var firstActive := FirstActive(ballots[j], active);
      if firstActive.Some? && firstActive.value != "" {
        counts := counts[firstActive.value := Get(counts, firstActive.value) + 1];
      }
    }
    assert ballots[..|ballots|] == ballots;
  }

  /**
   * runInstantRunoff as the loop it is: the active set shrinks by one
   * candidate per round until a round decides or one candidate is left.
   */
  method RunInstantRunoff(votes: seq<Ranking>, candidateIds: seq<string>, names: map<string, string>)
    returns (r: RunoffResult)
    ensures r == InstantRunoff(votes, candidateIds, names)
  {
    if |votes| == 0 || |candidateIds| == 0 {
      return NoResult;
    }
    var active := Distinct(candidateIds);
    var round := 0;
    while |active| > 1
      invariant NoDup(active)
      invariant Runoff(votes, active, names) == InstantRunoff(votes, candidateIds, names)
      invariant round + |active| == |Distinct(candidateIds)|
      decreases |active|
    {
      round := round + 1;
      var counts := CountRound(votes, active);
      var total := |votes|;
      var sorted := SortDesc(active, KeyOf(counts));
      var majority := total / 2 + 1;
      var leaderCount := Get(counts, sorted[0]);
      if leaderCount >= majority {
        return Winner(NameOr(names, sorted[0], sorted[0]));
      }
      var lastCount := Get(counts, sorted[|sorted| - 1]);
      var secondLastCount := if |sorted| >= 2 then Get(counts, sorted[|sorted| - 2]) else -1;
      if |active| == 2 && lastCount == secondLastCount && lastCount == leaderCount {
        return Tie(NamesOf(sorted, names));
      }
      var eliminated := sorted[|sorted| - 1];
      assert Round(votes, active) == Eliminate(eliminated);
      RemoveMemberLength(active, eliminated);
      active := Remove(active, eliminated);
    }
    if |active| == 1 && active[0] != "" {
      r := Winner(NameOr(names, active[0], active[0]));
    } else {
      r := NoResult;
    }
  }

  // =====================================================================
  // The per-position decision of tallyElection
  // =====================================================================

  datatype PositionTally = PositionTally(
    position: string,
    totalVotes: nat,
    firstPreference: seq<FirstPreference>,
    rcvWinner: Option<string>,
    rcvTie: Option<seq<string>>,
    runoffUsed: bool)

  function TallyPosition(position: string, votes: seq<Ranking>, candidateIds: seq<string>, names: map<string, string>): PositionTally {
    var firstPreference := FirstPreferenceTable(votes, names);
    var totalVotes := |votes|;
    var majority := if totalVotes > 0 then totalVotes / 2 + 1 else 0;
    var leaderCount := if |firstPreference| > 0 then firstPreference[0].firstPreferenceCount else 0;
    var hasFirstChoiceWinner := totalVotes > 0 && leaderCount >= majority;
    var needsRunoff := !hasFirstChoiceWinner;
    var outcome :=
      if needsRunoff then InstantRunoff(votes, candidateIds, names)
      else if |firstPreference| > 0 then Winner(firstPreference[0].candidateName)
      else NoResult;
    PositionTally(
      position, totalVotes, firstPreference,
      if outcome.Winner? then Some(outcome.name) else None,
      if outcome.Tie? then Some(outcome.names) else None,
      needsRunoff)
  }

  /**
   * The runoff is used exactly when no candidate holds a first-preference
   * majority; otherwise the first-preference leader, who then holds more
   * than half of all ballots, is the winner.
   */
  lemma TallyDecision(position: string, votes: seq<Ranking>, candidateIds: seq<string>, names: map<string, string>)
    ensures var t := TallyPosition(position, votes, candidateIds, names);
      var fp := t.firstPreference;
      && (t.runoffUsed <==> forall k :: 0 <= k < |fp| ==> fp[k].firstPreferenceCount <= |votes| / 2)
      && (!t.runoffUsed ==>
            && |fp| > 0 && 2 * fp[0].firstPreferenceCount > |votes|
            && t.rcvWinner == Some(fp[0].candidateName) && t.rcvTie.None?)
      && (t.runoffUsed ==> var o := InstantRunoff(votes, candidateIds, names);
            t.rcvWinner == (if o.Winner? then Some(o.name) else None)
            && t.rcvTie == (if o.Tie? then Some(o.names) else None))
  {
    var fp := FirstPreferenceTable(votes, names);
    assert SortedDesc(fp, CountOf);
    if |fp| > 0 {
      assert forall k :: 0 <= k < |fp| ==> fp[k].firstPreferenceCount <= fp[0].firstPreferenceCount by {
        forall k | 0 < k < |fp| ensures fp[k].firstPreferenceCount <= fp[0].firstPreferenceCount {
          assert CountOf(fp[0]) >= CountOf(fp[k]);
        }
      }
    }
  }

  /**
   * Skipping the runoff never changes the winner: when every ballot's
   * first choice is one of the position's candidates, all of them are
   * named and none has the empty id, a first-preference majority winner
   * is also the candidate the runoff elects.
   */
  lemma {:induction false} FirstChoiceWinnerAgreesWithRunoff(
    votes: seq<Ranking>, candidateIds: seq<string>, names: map<string, string>)
    requires forall k :: 0 <= k < |votes| && votes[k] != [] ==> votes[k][0] in candidateIds
    requires forall k :: 0 <= k < |candidateIds| ==> candidateIds[k] in names && candidateIds[k] != ""
    requires !TallyPosition("", votes, candidateIds, names).runoffUsed
    ensures InstantRunoff(votes, candidateIds, names) == Winner(FirstPreferenceTable(votes, names)[0].candidateName)
  {
    var fp := FirstPreferenceTable(votes, names);
    var firsts := FirstChoices(votes);
    var active := Distinct(candidateIds);
    TallyDecision("", votes, candidateIds, names);
    FirstPreferenceRows(votes, names);
    var leader := fp[0].candidateId;
    assert leader in candidateIds by {
      var i :| 0 <= i < |firsts| && firsts[i] == leader;
      FirstChoicesMembers(votes, candidateIds, i);
    }
    assert leader in active;
    assert fp[0].candidateName == NameOr(names, leader, leader);
    if |active| == 1 {
      assert active[0] == leader;
    } else {
      ActiveChoicesOfFirst(votes, candidateIds, active);
      assert RoundCount(votes, active, leader) == fp[0].firstPreferenceCount;
      RoundElect(votes, active);
      match Round(votes, active)
        case Elect(w) =>
          if w != leader {
            MajorityUnique(votes, active, w, leader);
          }
        case Tied(_) =>
          assert false;
        case Eliminate(_) =>
          assert false;
    }
  }

  lemma {:induction false} FirstChoicesMembers(votes: seq<Ranking>, candidateIds: seq<string>, i: nat)
    requires forall k :: 0 <= k < |votes| && votes[k] != [] ==> votes[k][0] in candidateIds
    requires i < |FirstChoices(votes)|
    ensures FirstChoices(votes)[i] in candidateIds
  {
    if votes[0] != [] {
      if i > 0 {
        FirstChoicesMembers(votes[1..], candidateIds, i - 1);
      }
    } else {
      FirstChoicesMembers(votes[1..], candidateIds, i);
    }
  }

  /** With every first choice active and non-empty, round one counts exactly the first choices. */
  lemma {:induction false} ActiveChoicesOfFirst(votes: seq<Ranking>, candidateIds: seq<string>, active: seq<string>)
    requires forall k :: 0 <= k < |votes| && votes[k] != [] ==> votes[k][0] in candidateIds
    requires forall k :: 0 <= k < |candidateIds| ==> candidateIds[k] != ""
    requires forall k :: 0 <= k < |candidateIds| ==> candidateIds[k] in active
    ensures ActiveChoices(votes, active) == FirstChoices(votes)
  {
    if votes != [] {
      ActiveChoicesOfFirst(votes[1..], candidateIds, active);
    }
  }

  // =====================================================================
  // The whole election
  // =====================================================================

  /** `candidateIdToName` for the election's candidates (a later id overwrites). */
  function NameIndex(cands: seq<Candidate>): (m: map<string, string>)
    ensures forall k :: 0 <= k < |cands| ==> cands[k].id in m
  {
    if cands == [] then map[]
    else NameIndex(cands[..|cands| - 1])[cands[|cands| - 1].id := cands[|cands| - 1].name]
  }

  function PositionsOf(cands: seq<Candidate>): seq<string> {
    if cands == [] then [] else [cands[0].position] + PositionsOf(cands[1..])
  }

  function CandidateIdsAt(cands: seq<Candidate>, position: string): seq<string> {
    if cands == [] then []
    else (if cands[0].position == position then [cands[0].id] else []) + CandidateIdsAt(cands[1..], position)
  }

  function RankingsAt(votes: seq<Vote>, electionId: string, position: string): seq<Ranking> {
    if votes == [] then []
    else
      (if votes[0].electionId == electionId && votes[0].position == position then [votes[0].ranking] else [])
      + RankingsAt(votes[1..], electionId, position)
  }

  function OfElection(cands: seq<Candidate>, electionId: string): seq<Candidate> {
    if cands == [] then []
    else (if cands[0].electionId == electionId then [cands[0]] else []) + OfElection(cands[1..], electionId)
  }

  /**
   * tallyElection without the report: one tally per position of the
   * election's candidates, in order of first appearance, each over the
   * votes stored for that position.
   */
  function TallyElection(electionId: string, allCandidates: seq<Candidate>, votes: seq<Vote>): (r: seq<PositionTally>)
    ensures var positions := Distinct(PositionsOf(OfElection(allCandidates, electionId)));
      && |r| == |positions|
      && forall k :: 0 <= k < |r| ==>
           r[k].position == positions[k]
           && r[k].totalVotes == |RankingsAt(votes, electionId, positions[k])|
  {
    var cands := OfElection(allCandidates, electionId);
    var names := NameIndex(cands);
    var positions := Distinct(PositionsOf(cands));
    seq(|positions|, k requires 0 <= k < |positions| =>
      TallyPosition(positions[k], RankingsAt(votes, electionId, positions[k]), CandidateIdsAt(cands, positions[k]), names))
  }
}
