/**
 * The ballot-building state of one position on the voting page: the
 * candidates not yet ranked, the ranked list in preference order, the
 * candidate being dragged, and the write-in form.
 */
module BallotSection {
  import opened Util

  datatype BallotCandidate = BallotCandidate(id: string, name: string, position: string, writeIn: bool)

  /** What the section reports to the page after every change. */
  datatype RankingState = RankingState(candidateIds: seq<string>, isComplete: bool)

  function Ids(s: seq<BallotCandidate>): (r: seq<string>)
    ensures |r| == |s|
    ensures forall i :: 0 <= i < |s| ==> r[i] == s[i].id
  {
    if s == [] then [] else [s[0].id] + Ids(s[1..])
  }

  lemma {:induction false} IdsAppend(a: seq<BallotCandidate>, b: seq<BallotCandidate>)
    ensures Ids(a + b) == Ids(a) + Ids(b)
  {
    assert |Ids(a + b)| == |Ids(a) + Ids(b)|;
  }

  /** No two candidates share an id. */
  predicate DistinctIds(s: seq<BallotCandidate>) {
    forall i, j :: 0 <= i < j < |s| ==> s[i].id != s[j].id
  }

  /** Any sub-multiset of a list with distinct ids has distinct ids. */
  lemma DistinctIdsOfSub(a: seq<BallotCandidate>, b: seq<BallotCandidate>)
    requires multiset(b) <= multiset(a) && DistinctIds(a)
    ensures DistinctIds(b)
  {
    forall i, j | 0 <= i < j < |b| ensures b[i].id != b[j].id {
      TwoIndicesOfSub(a, b, i, j);
    }
  }

  /** `list.filter(c => c._id !== id)`. */
  function WithoutId(s: seq<BallotCandidate>, id: string): (r: seq<BallotCandidate>)
    ensures forall c :: c in r <==> c in s && c.id != id
    ensures |r| <= |s|
  {
    if s == [] then []
    else (if s[0].id != id then [s[0]] else []) + WithoutId(s[1..], id)
  }

  /** Filtering out an id that occurs exactly once removes exactly that candidate. */
  lemma {:induction false} WithoutUniqueId(s: seq<BallotCandidate>, k: nat)
    requires k < |s| && DistinctIds(s)
    ensures multiset(WithoutId(s, s[k].id)) + multiset{s[k]} == multiset(s)
    decreases |s|
  {
    var t := s[1..];
    assert s == [s[0]] + t;
    if k == 0 {
      WithoutAbsentId(t, s[0].id);
    } else {
      WithoutUniqueId(t, k - 1);
      assert t[k - 1] == s[k];
    }
  }

  lemma {:induction false} WithoutAbsentId(s: seq<BallotCandidate>, id: string)
    requires forall c :: c in s ==> c.id != id
    ensures WithoutId(s, id) == s
    decreases |s|
  {
    if s != [] {
      WithoutAbsentId(s[1..], id);
    }
  }

  lemma {:induction false} WithoutIdSub(s: seq<BallotCandidate>, id: string)
    ensures multiset(WithoutId(s, id)) <= multiset(s)
    decreases |s|
  {
    if s != [] {
      WithoutIdSub(s[1..], id);
      assert s == [s[0]] + s[1..];
    }
  }

  /** `list.findIndex(c => c._id === id)`: the first match, or -1. */
  function FindIndex(s: seq<BallotCandidate>, id: string): (r: int)
    ensures -1 <= r < |s|
    ensures r == -1 <==> id !in Ids(s)
    ensures r >= 0 ==> s[r].id == id && forall i :: 0 <= i < r ==> s[i].id != id
  {
    if s == [] then -1
    else if s[0].id == id then 0
    else
      var k := FindIndex(s[1..], id);
      assert Ids(s[1..]) == Ids(s)[1..];
      if k == -1 then -1 else k + 1
  }

  /** The insertion point `Array.prototype.splice` uses for a start index on a list of length len. */
  function SpliceStart(start: int, len: nat): (r: nat)
    ensures r <= len
    ensures 0 <= start <= len ==> r == start
  {
    if start < 0 then (if len + start < 0 then 0 else len + start)
    else if start > len then len
    else start
  }

  /**
   * handleDragOver: on a copy of the ranked list, cut the dragged
   * candidate out and insert it at the target's index (found before the
   * cut). No dragged id, dragging over itself, or a dragged id that is not
   * ranked leaves the list alone.
   */
  function DragOver(ranked: seq<BallotCandidate>, draggedId: Option<string>, targetId: string): seq<BallotCandidate> {
    if draggedId.None? || draggedId.value == "" || draggedId.value == targetId then ranked
    else
      var d := FindIndex(ranked, draggedId.value);
      var t := FindIndex(ranked, targetId);
      if d == -1 then ranked
      else
        var rest := RemoveAt(ranked, d);
        InsertAt(rest, SpliceStart(t, |rest|), ranked[d])
  }

  /**
   * Dragging always yields a permutation of the ranked list; when it moves
   * something, the dragged candidate sits at the target's old index (the
   * target is always a ranked card) and the others keep their relative order.
   */
  lemma DragOverPermutes(ranked: seq<BallotCandidate>, draggedId: Option<string>, targetId: string)
    ensures multiset(DragOver(ranked, draggedId, targetId)) == multiset(ranked)
    ensures draggedId.None? || draggedId.value == "" || draggedId.value == targetId || draggedId.value !in Ids(ranked)
      ==> DragOver(ranked, draggedId, targetId) == ranked
    ensures (draggedId.Some? && draggedId.value != "" && draggedId.value != targetId
             && draggedId.value in Ids(ranked) && targetId in Ids(ranked)) ==>
      var r := DragOver(ranked, draggedId, targetId);
      var d := FindIndex(ranked, draggedId.value);
      var t := FindIndex(ranked, targetId);
      && r[t] == ranked[d]
      && RemoveAt(r, t) == RemoveAt(ranked, d)
  {
    if draggedId.Some? && draggedId.value != "" && draggedId.value != targetId && draggedId.value in Ids(ranked) {
      var d := FindIndex(ranked, draggedId.value);
      var t := FindIndex(ranked, targetId);
      MoveFacts(ranked, d, SpliceStart(t, |RemoveAt(ranked, d)|));
    }
  }

  /** The write-ins among a list, in order. */
  function WriteIns(s: seq<BallotCandidate>): (r: seq<BallotCandidate>)
    ensures forall c :: c in r <==> c in s && c.writeIn
  {
    if s == [] then [] else (if s[0].writeIn then [s[0]] else []) + WriteIns(s[1..])
  }

  predicate HasWriteIn(s: seq<BallotCandidate>) {
    exists c :: c in s && c.writeIn
  }

  /** The reply of the create-write-in request: an error message, a candidate, or a thrown error. */
  datatype WriteInReply = ReplyMessage(message: string) | ReplyCandidate(candidate: BallotCandidate) | ReplyFailed

  const NamesRequired := "Both first and last name are required."
  const AlreadyOnBallot := "This candidate is already on your ballot."
  const SomethingWrong := "Something went wrong. Please try again."

  /** Some candidate on the ballot already has this name, case ignored. */
  predicate NameOnBallot(s: seq<BallotCandidate>, lowerName: string) {
    exists c :: c in s && ToLower(c.name) == lowerName
  }

  datatype WriteInStep = Ignored | Rejected(message: string) | Added(candidate: BallotCandidate)

  /**
   * What adding a write-in does to the section: nothing in a preview;
   * otherwise the checks run in order (both names non-blank after
   * trimming, the lowercased "first last" not already on the ballot, a
   * candidate in the reply, its id not on the ballot) and the first
   * failure becomes the error shown.
   */
  function AddWriteInStep(canCreate: bool, first: string, last: string, onBallot: seq<BallotCandidate>,
                          reply: WriteInReply): WriteInStep
  {
    if !canCreate then Ignored
    else if Trim(first) == "" || Trim(last) == "" then Rejected(NamesRequired)
    else if NameOnBallot(onBallot, ToLower(Trim(first) + " " + Trim(last))) then Rejected(AlreadyOnBallot)
    else match reply
      case ReplyMessage(message) => Rejected(message)
      case ReplyFailed => Rejected(SomethingWrong)
      case ReplyCandidate(c) => if c.id in Ids(onBallot) then Rejected(AlreadyOnBallot) else Added(c)
  }

  /** A write-in is added iff every check passes; it never duplicates a name or an id already on the ballot. */
  lemma AddWriteInStepFresh(canCreate: bool, first: string, last: string, onBallot: seq<BallotCandidate>,
                            reply: WriteInReply)
    ensures AddWriteInStep(canCreate, first, last, onBallot, reply).Added? <==>
      && canCreate && Trim(first) != "" && Trim(last) != ""
      && !NameOnBallot(onBallot, ToLower(Trim(first) + " " + Trim(last)))
      && reply.ReplyCandidate? && reply.candidate.id !in Ids(onBallot)
    ensures AddWriteInStep(canCreate, first, last, onBallot, reply).Added? ==>
      AddWriteInStep(canCreate, first, last, onBallot, reply).candidate == reply.candidate
      && forall c :: c in onBallot ==> c.id != reply.candidate.id
    ensures canCreate && (Trim(first) == "" || Trim(last) == "") ==>
      AddWriteInStep(canCreate, first, last, onBallot, reply) == Rejected(NamesRequired)
    ensures !canCreate ==> AddWriteInStep(canCreate, first, last, onBallot, reply) == Ignored
  {
    if AddWriteInStep(canCreate, first, last, onBallot, reply).Added? {
      forall c | c in onBallot ensures c.id != reply.candidate.id {
        var i :| 0 <= i < |onBallot| && onBallot[i] == c;
        assert Ids(onBallot)[i] == c.id;
      }
    }
  }

  /** The shuffle's i-th random draw, an index in [0, i]. */
  function Draw(draws: seq<nat>, i: nat): (j: nat)
    ensures j <= i
  {
    if i < |draws| then draws[i] % (i + 1) else 0
  }

  /**
   * shuffleArray: a Fisher-Yates pass over a fresh copy, swapping index i
   * with a drawn index j <= i from the end down to 1. The random numbers
   * are a parameter; whatever they are, the result is a permutation.
   */
  method ShuffleArray(candidates: seq<BallotCandidate>, draws: seq<nat>) returns (shuffled: array<BallotCandidate>)
    ensures fresh(shuffled)
    ensures shuffled.Length == |candidates|
    ensures multiset(shuffled[..]) == multiset(candidates)
  {
    shuffled := new BallotCandidate[|candidates|](i requires 0 <= i < |candidates| => candidates[i]);
    assert shuffled[..] == candidates;
    var i := shuffled.Length - 1;
    while i > 0
      invariant -1 <= i < shuffled.Length
      invariant multiset(shuffled[..]) == multiset(candidates)
    {
      var j := Draw(draws, i);
      shuffled[i], shuffled[j] := shuffled[j], shuffled[i];
      i := i - 1;
    }
  }

  class Ballot {
    const position: string
    /** The shuffled candidate list, computed once per candidate list. */
    const initialShuffled: seq<BallotCandidate>
    /** Whether the page supplied a write-in callback; without one the section is a preview. */
    const canCreateWriteIn: bool
    var unranked: seq<BallotCandidate>
    var ranked: seq<BallotCandidate>
    var draggedId: Option<string>
    var showWriteInForm: bool
    var writeInFirst: string
    var writeInLast: string
    var writeInError: string

    /** Every candidate id appears once across the two lists. */
    predicate Valid()
      reads this
    {
      DistinctIds(unranked + ranked)
    }

    /** The ranking reported to the page. */
    function Reported(): RankingState
      reads this
    {
      RankingState(Ids(ranked), |unranked| == 0 && |ranked| > 0)
    }

    /** The add-write-in control is offered only while no write-in is on the ballot. */
    function OffersWriteIn(): bool
      reads this
    {
      !HasWriteIn(unranked) && !HasWriteIn(ranked)
    }

    constructor (position: string, candidates: seq<BallotCandidate>, draws: seq<nat>, canCreateWriteIn: bool)
      requires DistinctIds(candidates)
      ensures multiset(initialShuffled) == multiset(candidates)
      ensures unranked == initialShuffled && ranked == [] && draggedId.None?
      ensures !showWriteInForm && writeInFirst == "" && writeInLast == "" && writeInError == ""
      ensures this.position == position && this.canCreateWriteIn == canCreateWriteIn
      ensures Valid()
    {
      var shuffled := ShuffleArray(candidates, draws);
      this.position := position;
      this.canCreateWriteIn := canCreateWriteIn;
      initialShuffled := shuffled[..];
      unranked := shuffled[..];
      ranked := [];
      draggedId := None;
      showWriteInForm := false;
      writeInFirst := "";
      writeInLast := "";
      writeInError := "";
      new;
      assert unranked + ranked == unranked;
      DistinctIdsOfSub(candidates, initialShuffled);
    }

    /** addToRanked: the candidate leaves the unranked list and goes to the end of the ranked one. */
    method AddToRanked(c: BallotCandidate)
      modifies this
      ensures unranked == WithoutId(old(unranked), c.id) && ranked == old(ranked) + [c]
      ensures draggedId == old(draggedId) && showWriteInForm == old(showWriteInForm)
      ensures writeInFirst == old(writeInFirst) && writeInLast == old(writeInLast) && writeInError == old(writeInError)
      ensures old(Valid()) && c in old(unranked) ==>
        Valid() && multiset(unranked + ranked) == multiset(old(unranked) + old(ranked))
    {
      if Valid() && c in unranked {
        MoveKeepsUnion(unranked, ranked, c);
      }
      unranked := WithoutId(unranked, c.id);
      ranked := ranked + [c];
    }

    /** removeFromRanked: the candidate leaves the ranked list and goes to the end of the unranked one. */
    method RemoveFromRanked(c: BallotCandidate)
      modifies this
      ensures ranked == WithoutId(old(ranked), c.id) && unranked == old(unranked) + [c]
      ensures draggedId == old(draggedId) && showWriteInForm == old(showWriteInForm)
      ensures writeInFirst == old(writeInFirst) && writeInLast == old(writeInLast) && writeInError == old(writeInError)
      ensures old(Valid()) && c in old(ranked) ==>
        Valid() && multiset(unranked + ranked) == multiset(old(unranked) + old(ranked))
    {
      if Valid() && c in ranked {
        MoveBackKeepsUnion(unranked, ranked, c);
      }
      ranked := WithoutId(ranked, c.id);
      unranked := unranked + [c];
    }

    /** removeWriteIn: the candidate disappears from both lists; every other candidate stays where it was. */
    method RemoveWriteIn(c: BallotCandidate)
      modifies this
      ensures unranked == WithoutId(old(unranked), c.id) && ranked == WithoutId(old(ranked), c.id)
      ensures draggedId == old(draggedId) && showWriteInForm == old(showWriteInForm)
      ensures writeInFirst == old(writeInFirst) && writeInLast == old(writeInLast) && writeInError == old(writeInError)
      ensures forall d :: d in unranked + ranked <==> d in old(unranked) + old(ranked) && d.id != c.id
      ensures old(Valid()) ==> Valid()
    {
      if Valid() {
        DropKeepsDistinct(unranked, ranked, c.id);
      }
      unranked := WithoutId(unranked, c.id);
      ranked := WithoutId(ranked, c.id);
    }

    method StartDrag(id: string)
      modifies this
      ensures draggedId == Some(id)
      ensures unranked == old(unranked) && ranked == old(ranked)
      ensures showWriteInForm == old(showWriteInForm) && writeInFirst == old(writeInFirst)
      ensures writeInLast == old(writeInLast) && writeInError == old(writeInError)
    {
      draggedId := Some(id);
    }

    method EndDrag()
      modifies this
      ensures draggedId.None?
      ensures unranked == old(unranked) && ranked == old(ranked)
      ensures showWriteInForm == old(showWriteInForm) && writeInFirst == old(writeInFirst)
      ensures writeInLast == old(writeInLast) && writeInError == old(writeInError)
    {
      draggedId := None;
    }

    /** handleDragOver: reorders the ranked list and nothing else. */
    method HandleDragOver(targetId: string)
      modifies this
      ensures ranked == DragOver(old(ranked), old(draggedId), targetId)
      ensures multiset(ranked) == multiset(old(ranked))
      ensures unranked == old(unranked) && draggedId == old(draggedId)
      ensures showWriteInForm == old(showWriteInForm) && writeInFirst == old(writeInFirst)
      ensures writeInLast == old(writeInLast) && writeInError == old(writeInError)
      ensures old(Valid()) ==> Valid()
    {
      DragOverPermutes(ranked, draggedId, targetId);
      var r := DragOver(ranked, draggedId, targetId);
      if Valid() {
        DistinctIdsOfSub(unranked + ranked, unranked + r);
      }
      ranked := r;
    }

    /** handleAddWriteIn, with the request's reply as a parameter; the outcome is AddWriteInStep. */
    method HandleAddWriteIn(reply: WriteInReply)
      modifies this
      ensures ranked == old(ranked) && draggedId == old(draggedId)
      ensures StepApplied(AddWriteInStep(canCreateWriteIn, old(writeInFirst), old(writeInLast), old(unranked) + old(ranked), reply),
                          old(unranked), old(showWriteInForm), old(writeInFirst), old(writeInLast), old(writeInError))
      ensures old(Valid()) ==> Valid()
    {
      var step := AddWriteInStep(canCreateWriteIn, writeInFirst, writeInLast, unranked + ranked, reply);
      AddWriteInStepFresh(canCreateWriteIn, writeInFirst, writeInLast, unranked + ranked, reply);
      ApplyWriteInStep(step);
    }

    /** The state change for one outcome of adding a write-in. */
    predicate StepApplied(step: WriteInStep, unranked0: seq<BallotCandidate>, show0: bool,
                          first0: string, last0: string, error0: string)
      reads this
    {
      match step
      case Ignored =>
        unranked == unranked0 && showWriteInForm == show0 && writeInFirst == first0
        && writeInLast == last0 && writeInError == error0
      case Rejected(message) =>
        unranked == unranked0 && showWriteInForm == show0 && writeInFirst == first0
        && writeInLast == last0 && writeInError == message
      case Added(c) =>
        unranked == unranked0 + [c] && !showWriteInForm && writeInFirst == "" && writeInLast == "" && writeInError == ""
    }

    method ApplyWriteInStep(step: WriteInStep)
      requires step.Added? ==> step.candidate.id !in Ids(unranked + ranked)
      modifies this
      ensures ranked == old(ranked) && draggedId == old(draggedId)
      ensures StepApplied(step, old(unranked), old(showWriteInForm), old(writeInFirst), old(writeInLast), old(writeInError))
      ensures old(Valid()) ==> Valid()
    {
      match step {
        case Ignored =>
        case Rejected(message) =>
          writeInError := message;
        case Added(c) =>
          if Valid() {
            AppendFreshKeepsDistinct(unranked, ranked, c);
          }
          unranked := unranked + [c];
          writeInFirst := "";
          writeInLast := "";
          writeInError := "";
          showWriteInForm := false;
      }
    }

    /**
     * handleReset: the initial shuffle comes back unranked, followed by
     * every write-in from either list; nothing stays ranked and the
     * write-in form is cleared.
     */
    method HandleReset()
      modifies this
      ensures unranked == initialShuffled + WriteIns(old(unranked) + old(ranked)) && ranked == []
      ensures !showWriteInForm && writeInFirst == "" && writeInLast == "" && writeInError == ""
      ensures draggedId == old(draggedId)
      ensures !Reported().isComplete || initialShuffled + WriteIns(old(unranked) + old(ranked)) == []
    {
      unranked := initialShuffled + WriteIns(unranked + ranked);
      ranked := [];
      showWriteInForm := false;
      writeInFirst := "";
      writeInLast := "";
      writeInError := "";
    }
  }

  /**
   * The reported ranking is complete iff nothing is left unranked and
   * something is ranked; a complete ranking then lists every candidate of
   * the section exactly once.
   */
  lemma ReportedComplete(unranked: seq<BallotCandidate>, ranked: seq<BallotCandidate>)
    requires DistinctIds(unranked + ranked)
    ensures var r := RankingState(Ids(ranked), |unranked| == 0 && |ranked| > 0);
      && (r.isComplete <==> unranked == [] && ranked != [])
      && (r.isComplete ==> NoDup(r.candidateIds) && forall c :: c in unranked + ranked ==> c.id in r.candidateIds)
  {
    if unranked == [] {
      assert unranked + ranked == ranked;
    }
  }

  lemma MoveKeepsUnion(unranked: seq<BallotCandidate>, ranked: seq<BallotCandidate>, c: BallotCandidate)
    requires DistinctIds(unranked + ranked) && c in unranked
    ensures multiset(WithoutId(unranked, c.id) + (ranked + [c])) == multiset(unranked + ranked)
    ensures DistinctIds(WithoutId(unranked, c.id) + (ranked + [c]))
  {
    var k :| 0 <= k < |unranked| && unranked[k] == c;
    assert DistinctIds(unranked) by {
      forall i, j | 0 <= i < j < |unranked| ensures unranked[i].id != unranked[j].id {
        assert (unranked + ranked)[i] == unranked[i] && (unranked + ranked)[j] == unranked[j];
      }
    }
    WithoutUniqueId(unranked, k);
    DistinctIdsOfSub(unranked + ranked, WithoutId(unranked, c.id) + (ranked + [c]));
  }

  lemma MoveBackKeepsUnion(unranked: seq<BallotCandidate>, ranked: seq<BallotCandidate>, c: BallotCandidate)
    requires DistinctIds(unranked + ranked) && c in ranked
    ensures multiset((unranked + [c]) + WithoutId(ranked, c.id)) == multiset(unranked + ranked)
    ensures DistinctIds((unranked + [c]) + WithoutId(ranked, c.id))
  {
    var k :| 0 <= k < |ranked| && ranked[k] == c;
    assert DistinctIds(ranked) by {
      var n := |unranked|;
      forall i, j | 0 <= i < j < |ranked| ensures ranked[i].id != ranked[j].id {
        assert (unranked + ranked)[n + i] == ranked[i] && (unranked + ranked)[n + j] == ranked[j];
      }
    }
    WithoutUniqueId(ranked, k);
    DistinctIdsOfSub(unranked + ranked, (unranked + [c]) + WithoutId(ranked, c.id));
  }

  lemma DropKeepsDistinct(unranked: seq<BallotCandidate>, ranked: seq<BallotCandidate>, id: string)
    requires DistinctIds(unranked + ranked)
    ensures DistinctIds(WithoutId(unranked, id) + WithoutId(ranked, id))
  {
    WithoutIdSub(unranked, id);
    WithoutIdSub(ranked, id);
    DistinctIdsOfSub(unranked + ranked, WithoutId(unranked, id) + WithoutId(ranked, id));
  }

  lemma AppendFreshKeepsDistinct(unranked: seq<BallotCandidate>, ranked: seq<BallotCandidate>, c: BallotCandidate)
    requires DistinctIds(unranked + ranked) && c.id !in Ids(unranked + ranked)
    ensures DistinctIds((unranked + [c]) + ranked)
  {
    var s := unranked + ranked;
    assert DistinctIds(s + [c]) by {
      forall i, j | 0 <= i < j < |s + [c]| ensures (s + [c])[i].id != (s + [c])[j].id {
        if j == |s| {
          assert Ids(s)[i] == s[i].id;
        }
      }
    }
    DistinctIdsOfSub(s + [c], (unranked + [c]) + ranked);
  }
}
