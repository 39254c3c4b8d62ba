/**
 * The course CxID migration: each stored course is matched by its
 * code_slug to the API course data and receives that course's instructor
 * cxids; courses with a blank code or slug, or without API data, are
 * listed as skipped.
 */
module InstructorToCourse {
  import opened Util

  datatype ApiCourse = ApiCourse(courseCode: string, cxids: seq<int>)

  /** The fields of a stored course the migration reads; a missing string is "". */
  datatype DbCourse = DbCourse(id: int, code: string, codeSlug: string, name: string, reviewCount: int)

  /** The match key of a code: `code.toUpperCase().trim()`. */
  function MatchKey(code: string): string {
    Trim(ToUpper(code))
  }

  /** A missing or all-space string: `!s || s.trim() === ''`. */
  predicate IsBlank(s: string) {
    Trim(s) == ""
  }

  /** A string is blank exactly when every character of it is white space. */
  lemma IsBlankMeaning(s: string)
    ensures IsBlank(s) <==> forall i :: 0 <= i < |s| ==> IsSpace(s[i])
  {
    if !IsBlank(s) {
      var t := TrimStart(s);
      assert t != [];
      assert !IsSpace(s[|s| - |t|]);
    }
  }

  /**
   * The two string tests of the migration. The folds and lemmas below hold
   * for any choice; the migration itself uses Live.
   */
  datatype Norm = Norm(key: string -> string, blank: string -> bool)

  const Live := Norm(MatchKey, IsBlank)

  // =====================================================================
  // The API lookup
  // =====================================================================

  /** `apiLookup.set(key(c.courseCode), c)` for each API course in order. */
  function BuildLookup(api: seq<ApiCourse>, key: string -> string): map<string, ApiCourse> {
    if api == [] then map[]
    else BuildLookup(api[..|api| - 1], key)[key(api[|api| - 1].courseCode) := api[|api| - 1]]
  }

  function ApiKeys(api: seq<ApiCourse>, key: string -> string): seq<string> {
    seq(|api|, i requires 0 <= i < |api| => key(api[i].courseCode))
  }

  /** api[i] is the last API course with key k. */
  predicate LastWithKey(api: seq<ApiCourse>, k: string, i: int, key: string -> string) {
    && 0 <= i < |api|
    && key(api[i].courseCode) == k
    && forall j :: i < j < |api| ==> key(api[j].courseCode) != k
  }

  /** The lookup has a key exactly for each API course key. */
  lemma {:induction false} BuildLookupDomain(api: seq<ApiCourse>, key: string -> string)
    ensures forall k :: k in BuildLookup(api, key) <==> k in ApiKeys(api, key)
    decreases |api|
  {
    if api != [] {
      var p := api[..|api| - 1];
      BuildLookupDomain(p, key);
      assert ApiKeys(api, key) == ApiKeys(p, key) + [key(api[|api| - 1].courseCode)];
    }
  }

  /** A later API course with the same key overwrites an earlier one. */
  lemma {:induction false} BuildLookupLast(api: seq<ApiCourse>, key: string -> string, k: string)
    requires k in BuildLookup(api, key)
    ensures exists i :: LastWithKey(api, k, i, key) && BuildLookup(api, key)[k] == api[i]
    decreases |api|
  {
    var p := api[..|api| - 1];
    if k == key(api[|api| - 1].courseCode) {
      assert LastWithKey(api, k, |api| - 1, key);
    } else {
      BuildLookupLast(p, key, k);
      var i :| LastWithKey(p, k, i, key) && BuildLookup(p, key)[k] == p[i];
      forall j | i < j < |api| ensures key(api[j].courseCode) != k {
        if j < |p| {
          assert api[j] == p[j];
        }
      }
      assert LastWithKey(api, k, i, key);
    }
  }

  // =====================================================================
  // The update loop
  // =====================================================================

  /** What the loop decides for one course. */
  datatype Verdict = MissingCode | MissingSlug | NoApiData | Found(cxids: seq<int>)

  /** The branches of the loop body, in order. */
  function Classify(c: DbCourse, lookup: map<string, ApiCourse>, n: Norm): Verdict {
    if n.blank(c.code) then MissingCode
    else if n.blank(c.codeSlug) then MissingSlug
    else if n.key(c.codeSlug) !in lookup then NoApiData
    else Found(lookup[n.key(c.codeSlug)].cxids)
  }

  /** An entry of the skip list. */
  datatype Skip = Skip(id: int, code: string, name: string, reviewCount: int)

  function ByReviews(s: Skip): int { s.reviewCount }

  /** The skip entry for a course: placeholders replace a missing code or name only in the first branch. */
  function SkipOf(c: DbCourse, v: Verdict): Skip {
    if v.MissingCode? then
      Skip(c.id, if c.code == "" then "MISSING_CODE" else c.code, if c.name == "" then "N/A" else c.name, c.reviewCount)
    else Skip(c.id, c.code, c.name, c.reviewCount)
  }

  datatype Write = SetInstructorCxids(id: int, cxids: seq<int>)

  datatype Stats = Stats(totalInMongoDB: nat, totalInAPI: nat, updated: nat, skipped: nat, skippedDueToInvalidCode: nat, withMultipleCxids: nat)

  /** The loop state: writes, skips, counters and the running CxID total. */
  datatype State = State(writes: seq<Write>, skips: seq<Skip>, stats: Stats, totalCxids: nat)

  function Step(s: State, c: DbCourse, lookup: map<string, ApiCourse>, n: Norm): State {
    var v := Classify(c, lookup, n);
    match v
      case Found(cxids) =>
        State(s.writes + [SetInstructorCxids(c.id, cxids)], s.skips,
          s.stats.(updated := s.stats.updated + 1,
                   withMultipleCxids := s.stats.withMultipleCxids + (if |cxids| > 1 then 1 else 0)),
          s.totalCxids + |cxids|)
      case _ =>
        s.(skips := s.skips + [SkipOf(c, v)],
           stats := s.stats.(skipped := s.stats.skipped + 1,
                             skippedDueToInvalidCode := s.stats.skippedDueToInvalidCode + (if v.NoApiData? then 0 else 1)))
  }

  function RunAll(dbs: seq<DbCourse>, s0: State, lookup: map<string, ApiCourse>, n: Norm): State {
    if dbs == [] then s0 else Step(RunAll(dbs[..|dbs| - 1], s0, lookup, n), dbs[|dbs| - 1], lookup, n)
  }

  function Start(dbs: seq<DbCourse>, api: seq<ApiCourse>): State {
    State([], [], Stats(|dbs|, |api|, 0, 0, 0, 0), 0)
  }

  /** migrateCourses on a live run: the final state and the sorted skip list. */
  function Migration(dbs: seq<DbCourse>, api: seq<ApiCourse>, n: Norm): (State, seq<Skip>) {
    var s := RunAll(dbs, Start(dbs, api), BuildLookup(api, n.key), n);
    (s, SortDesc(s.skips, ByReviews))
  }

  // =====================================================================
  // Properties
  // =====================================================================

  /** The number of courses whose verdict satisfies p. */
  function CountVerdicts(dbs: seq<DbCourse>, lookup: map<string, ApiCourse>, n: Norm, p: Verdict -> bool): nat {
    if dbs == [] then 0
    else CountVerdicts(dbs[..|dbs| - 1], lookup, n, p) + (if p(Classify(dbs[|dbs| - 1], lookup, n)) then 1 else 0)
  }

  function SumLengths(ws: seq<Write>): nat {
    if ws == [] then 0 else SumLengths(ws[..|ws| - 1]) + |ws[|ws| - 1].cxids|
  }

  /**
   * The counters partition the courses: updated counts the matched ones,
   * skipped the others, of which skippedDueToInvalidCode counts those
   * with a blank code or slug; one write per update, one skip entry per
   * skip, and the CxID total is the sum of the written list lengths.
   */
  lemma {:induction false} RunAllCounts(dbs: seq<DbCourse>, lookup: map<string, ApiCourse>, n: Norm)
    ensures var s := RunAll(dbs, State([], [], Stats(0, 0, 0, 0, 0, 0), 0), lookup, n);
      && s.stats.updated == CountVerdicts(dbs, lookup, n, (v: Verdict) => v.Found?)
      && s.stats.skipped == CountVerdicts(dbs, lookup, n, (v: Verdict) => !v.Found?)
      && s.stats.skippedDueToInvalidCode == CountVerdicts(dbs, lookup, n, (v: Verdict) => v.MissingCode? || v.MissingSlug?)
      && s.stats.updated + s.stats.skipped == |dbs|
      && |s.writes| == s.stats.updated && |s.skips| == s.stats.skipped
      && s.totalCxids == SumLengths(s.writes)
    decreases |dbs|
  {
    if dbs != [] {
      RunAllCounts(dbs[..|dbs| - 1], lookup, n);
      var s := RunAll(dbs[..|dbs| - 1], State([], [], Stats(0, 0, 0, 0, 0, 0), 0), lookup, n);
      var c := dbs[|dbs| - 1];
      match Classify(c, lookup, n)
        case Found(cxids) =>
          assert (s.writes + [SetInstructorCxids(c.id, cxids)])[..|s.writes|] == s.writes;
        case _ =>
    }
  }

  /** The counters do not depend on the totals the state starts with. */
  lemma {:induction false} RunAllShift(dbs: seq<DbCourse>, t: nat, a: nat, lookup: map<string, ApiCourse>, n: Norm)
    ensures var s := RunAll(dbs, State([], [], Stats(t, a, 0, 0, 0, 0), 0), lookup, n);
      var z := RunAll(dbs, State([], [], Stats(0, 0, 0, 0, 0, 0), 0), lookup, n);
      s == z.(stats := z.stats.(totalInMongoDB := t, totalInAPI := a))
    decreases |dbs|
  {
    if dbs != [] {
      RunAllShift(dbs[..|dbs| - 1], t, a, lookup, n);
    }
  }

  /** The migration's counters partition the stored courses. */
  lemma MigrationCounts(dbs: seq<DbCourse>, api: seq<ApiCourse>, n: Norm)
    ensures var (s, skipList) := Migration(dbs, api, n);
      && s.stats.totalInMongoDB == |dbs| && s.stats.totalInAPI == |api|
      && s.stats.updated + s.stats.skipped == |dbs|
      && s.stats.skippedDueToInvalidCode <= s.stats.skipped
      && |s.writes| == s.stats.updated && |skipList| == s.stats.skipped
      && s.totalCxids == SumLengths(s.writes)
  {
    var lookup := BuildLookup(api, n.key);
    RunAllShift(dbs, |dbs|, |api|, lookup, n);
    RunAllCounts(dbs, lookup, n);
    CountVerdictsLe(dbs, lookup, n);
  }

  lemma {:induction false} CountVerdictsLe(dbs: seq<DbCourse>, lookup: map<string, ApiCourse>, n: Norm)
    ensures CountVerdicts(dbs, lookup, n, (v: Verdict) => v.MissingCode? || v.MissingSlug?) <= CountVerdicts(dbs, lookup, n, (v: Verdict) => !v.Found?)
    decreases |dbs|
  {
    if dbs != [] {
      CountVerdictsLe(dbs[..|dbs| - 1], lookup, n);
    }
  }

  /** A course with a code and a slug is matched exactly when its slug's key is the key of some API course, and gets the last such course's CxIDs. */
  lemma ClassifyFound(c: DbCourse, api: seq<ApiCourse>, n: Norm)
    requires !n.blank(c.code) && !n.blank(c.codeSlug)
    ensures Classify(c, BuildLookup(api, n.key), n).Found? <==> n.key(c.codeSlug) in ApiKeys(api, n.key)
    ensures Classify(c, BuildLookup(api, n.key), n).Found? ==>
      exists i :: LastWithKey(api, n.key(c.codeSlug), i, n.key) && Classify(c, BuildLookup(api, n.key), n).cxids == api[i].cxids
  {
    BuildLookupDomain(api, n.key);
    if n.key(c.codeSlug) in BuildLookup(api, n.key) {
      BuildLookupLast(api, n.key, n.key(c.codeSlug));
    }
  }

  /** Every matched course is written its cxids; every other course is listed as skipped. */
  lemma {:induction false} RunAllOutcome(dbs: seq<DbCourse>, s0: State, lookup: map<string, ApiCourse>, n: Norm)
    ensures var s := RunAll(dbs, s0, lookup, n);
      forall j :: 0 <= j < |dbs| ==>
        match Classify(dbs[j], lookup, n)
          case Found(cxids) => SetInstructorCxids(dbs[j].id, cxids) in s.writes
          case v => SkipOf(dbs[j], v) in s.skips
    ensures var s := RunAll(dbs, s0, lookup, n);
      forall x :: x in s.skips ==> x in s0.skips || exists j :: 0 <= j < |dbs| && x == SkipOf(dbs[j], Classify(dbs[j], lookup, n))
    decreases |dbs|
  {
    if dbs != [] {
      var q := dbs[..|dbs| - 1];
      RunAllOutcome(q, s0, lookup, n);
      var s := RunAll(dbs, s0, lookup, n);
      forall j | 0 <= j < |q| ensures dbs[j] == q[j] {
      }
      forall x | x in s.skips ensures x in s0.skips || exists j :: 0 <= j < |dbs| && x == SkipOf(dbs[j], Classify(dbs[j], lookup, n)) {
        if x !in RunAll(q, s0, lookup, n).skips {
          assert x == SkipOf(dbs[|q|], Classify(dbs[|q|], lookup, n));
        } else if x !in s0.skips {
          var j :| 0 <= j < |q| && x == SkipOf(q[j], Classify(q[j], lookup, n));
          assert dbs[j] == q[j];
        }
      }
    }
  }

  /** The skip list is the skipped courses, most reviewed first. */
  lemma MigrationSkipList(dbs: seq<DbCourse>, api: seq<ApiCourse>, n: Norm)
    ensures var (s, skipList) := Migration(dbs, api, n);
      && (forall i, j :: 0 <= i < j < |skipList| ==> skipList[i].reviewCount >= skipList[j].reviewCount)
      && multiset(skipList) == multiset(s.skips)
  {
    var (s, skipList) := Migration(dbs, api, n);
    forall i, j | 0 <= i < j < |skipList| ensures skipList[i].reviewCount >= skipList[j].reviewCount {
      assert ByReviews(skipList[i]) >= ByReviews(skipList[j]);
    }
  }

  // =====================================================================
  // The loops
  // =====================================================================

  /** migrateCourses: a dry run issues no writes and computes the same counters and skip list. */
  method MigrateCourses(dbs: seq<DbCourse>, api: seq<ApiCourse>, dryRun: bool)
    returns (writes: seq<Write>, stats: Stats, totalCxids: nat, skipList: seq<Skip>)
    ensures writes == (if dryRun then [] else Migration(dbs, api, Live).0.writes)
    ensures stats == Migration(dbs, api, Live).0.stats
    ensures totalCxids == Migration(dbs, api, Live).0.totalCxids
    ensures skipList == Migration(dbs, api, Live).1
  {
    var lookup := IndexApiCourses(api, MatchKey);
    var s := RunCourses(dbs, Start(dbs, api), lookup);
    writes := if dryRun then [] else s.writes;
    stats := s.stats;
    totalCxids := s.totalCxids;
    skipList := SortDesc(s.skips, ByReviews);
  }

  /**
   * The first loop: the API courses keyed by their code as `key` reduces
   * it, a later course replacing an earlier one; the migration uses MatchKey.
   */
  method IndexApiCourses(api: seq<ApiCourse>, key: string -> string) returns (lookup: map<string, ApiCourse>)
    ensures lookup == BuildLookup(api, key)
  {
    lookup := map[];
    var i := 0;
    while i < |api|
      invariant 0 <= i <= |api|
      invariant lookup == BuildLookup(api[..i], key)
    {
      assert api[..i + 1][..i] == api[..i];
      lookup := lookup[key(api[i].courseCode) := api[i]];
      i := i + 1;
    }
    assert api[..|api|] == api;
  }

  /** The update loop over the database courses. */
  method RunCourses(dbs: seq<DbCourse>, s0: State, lookup: map<string, ApiCourse>) returns (s: State)
    ensures s == RunAll(dbs, s0, lookup, Live)
  {
    s := s0;
    var j := 0;
    while j < |dbs|
      invariant 0 <= j <= |dbs|
      invariant s == RunAll(dbs[..j], s0, lookup, Live)
    {
      assert dbs[..j + 1][..j] == dbs[..j];
      s := ProcessCourse(s, dbs[j], lookup, Live);
      j := j + 1;
    }
    assert dbs[..|dbs|] == dbs;
  }

  /** One iteration of the update loop. */
  method ProcessCourse(s0: State, c: DbCourse, lookup: map<string, ApiCourse>, n: Norm) returns (s: State)
    ensures s == Step(s0, c, lookup, n)
  {
    s := s0;
    if n.blank(c.code) {
      s := s.(skips := s.skips + [SkipOf(c, MissingCode)],
              stats := s.stats.(skipped := s.stats.skipped + 1, skippedDueToInvalidCode := s.stats.skippedDueToInvalidCode + 1));
      return;
    }
    if n.blank(c.codeSlug) {
      s := s.(skips := s.skips + [SkipOf(c, MissingSlug)],
              stats := s.stats.(skipped := s.stats.skipped + 1, skippedDueToInvalidCode := s.stats.skippedDueToInvalidCode + 1));
      return;
    }
    var normalizedSlug := n.key(c.codeSlug);
    if normalizedSlug !in lookup {
      s := s.(skips := s.skips + [SkipOf(c, NoApiData)], stats := s.stats.(skipped := s.stats.skipped + 1));
      return;
    }
    var cxids := lookup[normalizedSlug].cxids;
    s := s.(writes := s.writes + [SetInstructorCxids(c.id, cxids)], totalCxids := s.totalCxids + |cxids|);
    if |cxids| > 1 {
      s := s.(stats := s.stats.(withMultipleCxids := s.stats.withMultipleCxids + 1));
    }
    s := s.(stats := s.stats.(updated := s.stats.updated + 1));
  }
}
