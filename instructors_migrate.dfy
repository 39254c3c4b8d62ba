/**
 * The instructor CxID migration: API instructors are matched to stored
 * instructors by normalised name; matches receive the API cxids, stored
 * instructors without a match are listed as skipped, and API instructors
 * left unmatched are created with fresh consecutive ids.
 */
module InstructorsMigrate {
  import opened Util

  // =====================================================================
  // Name normalisation
  // =====================================================================

  /** normalizeName: trim, collapse each whitespace run to one space, lowercase. */
  function NormalizeName(name: string): string {
    ToLower(ReplaceSpaceRuns(Trim(name), " "))
  }

  /** Every whitespace character is a plain space followed by a non-space character. */
  predicate SingleSpaced(s: string) {
    if s == [] then true
    else if IsSpace(s[0]) then s[0] == ' ' && |s| > 1 && !IsSpace(s[1]) && SingleSpaced(s[1..])
    else SingleSpaced(s[1..])
  }

  /** The shape of a normalised name. */
  predicate IsNormalName(s: string) {
    && (s == [] || !IsSpace(s[0]))
    && SingleSpaced(s)
    && forall i :: 0 <= i < |s| ==> !IsUpper(s[i])
  }

  lemma {:induction false} SingleSpacedLast(s: string)
    requires SingleSpaced(s) && s != []
    ensures !IsSpace(s[|s| - 1])
    decreases |s|
  {
    if |s| > 1 {
      SingleSpacedLast(s[1..]);
    }
  }

  lemma {:induction false} ReplaceSpaceRunsFirst(s: string)
    requires s != [] && !IsSpace(s[0])
    ensures ReplaceSpaceRuns(s, " ") == [s[0]] + ReplaceSpaceRuns(s[1..], " ")
  {
  }

  /** Collapsing the runs of a string that does not end in whitespace leaves it single-spaced. */
  lemma {:induction false} ReplaceSpaceRunsSingleSpaced(s: string)
    requires s == [] || !IsSpace(s[|s| - 1])
    ensures SingleSpaced(ReplaceSpaceRuns(s, " "))
    decreases |s|
  {
    if s != [] {
      if IsSpace(s[0]) {
        var t := TrimStart(s);
        assert t != [] && t[|t| - 1] == s[|s| - 1];
        ReplaceSpaceRunsSingleSpaced(t);
        ReplaceSpaceRunsFirst(t);
        var r := ReplaceSpaceRuns(t, " ");
        assert ReplaceSpaceRuns(s, " ") == " " + r;
        assert (" " + r)[1..] == r;
      } else {
        if |s| > 1 {
          assert s[1..][|s| - 2] == s[|s| - 1];
        }
        ReplaceSpaceRunsSingleSpaced(s[1..]);
        assert ReplaceSpaceRuns(s, " ")[1..] == ReplaceSpaceRuns(s[1..], " ");
      }
    }
  }

  /** A single-spaced string has no run to collapse. */
  lemma {:induction false} ReplaceSpaceRunsOfSingleSpaced(s: string)
    requires SingleSpaced(s)
    ensures ReplaceSpaceRuns(s, " ") == s
    decreases |s|
  {
    if s != [] {
      ReplaceSpaceRunsOfSingleSpaced(s[1..]);
      if IsSpace(s[0]) {
        assert TrimStart(s[1..]) == s[1..];
        assert TrimStart(s) == s[1..];
      }
      assert s == [s[0]] + s[1..];
    }
  }

  lemma {:induction false} ToLowerSingleSpaced(s: string)
    requires SingleSpaced(s)
    ensures SingleSpaced(ToLower(s))
    decreases |s|
  {
    if s != [] {
      ToLowerSingleSpaced(s[1..]);
      assert ToLower(s)[1..] == ToLower(s[1..]);
    }
  }

  /** A normalised name has the normal shape. */
  lemma NormalizeNameShape(name: string)
    ensures IsNormalName(NormalizeName(name))
  {
    var t := Trim(name);
    ReplaceSpaceRunsSingleSpaced(t);
    var r := ReplaceSpaceRuns(t, " ");
    if t != [] {
      ReplaceSpaceRunsFirst(t);
      assert r[0] == t[0];
    }
    ToLowerSingleSpaced(r);
    var n := ToLower(r);
    assert n == NormalizeName(name);
    forall i | 0 <= i < |n| ensures !IsUpper(n[i]) {
      assert n[i] == LowerChar(r[i]);
    }
    if n != [] {
      assert n[0] == LowerChar(r[0]);
    }
  }

  /** A name of the normal shape is its own normalisation. */
  lemma NormalizeNameFixed(s: string)
    requires IsNormalName(s)
    ensures NormalizeName(s) == s
  {
    if s != [] {
      SingleSpacedLast(s);
    }
    assert TrimStart(s) == s;
    assert TrimEnd(s) == s;
    ReplaceSpaceRunsOfSingleSpaced(s);
  }

  /** Normalising twice is normalising once. */
  lemma NormalizeNameIdempotent(name: string)
    ensures NormalizeName(NormalizeName(name)) == NormalizeName(name)
  {
    NormalizeNameShape(name);
    NormalizeNameFixed(NormalizeName(name));
  }

  // =====================================================================
  // The API lookup
  // =====================================================================

  datatype ApiInstructor = ApiInstructor(name: string, cxids: seq<int>)

  /** The fields of a stored instructor the migration reads. */
  datatype DbInstructor = DbInstructor(id: int, name: string, numReviews: int)

  /** apiLookup: a Map, with its keys in insertion order. */
  datatype Lookup = Lookup(keys: seq<string>, entries: map<string, ApiInstructor>)

  // The matching below is stated for any key function norm; the migration
  // instantiates it with NormalizeName.

  /** `apiLookup.set(norm(i.name), i)` for each API instructor in order. */
  function BuildLookup(api: seq<ApiInstructor>, norm: string -> string): Lookup {
    if api == [] then Lookup([], map[])
    else
      var l := BuildLookup(api[..|api| - 1], norm);
      var a := api[|api| - 1];
      var k := norm(a.name);
      if k in l.entries then l.(entries := l.entries[k := a])
      else Lookup(l.keys + [k], l.entries[k := a])
  }

  /** api[i] is the last API instructor whose normalised name is k. */
  predicate LastWithName(api: seq<ApiInstructor>, k: string, i: int, norm: string -> string) {
    && 0 <= i < |api|
    && norm(api[i].name) == k
    && forall j :: i < j < |api| ==> norm(api[j].name) != k
  }

  /** The lookup keys are distinct, in insertion order, and exactly the keys of its entries. */
  lemma {:induction false} BuildLookupKeys(api: seq<ApiInstructor>, norm: string -> string)
    ensures var l := BuildLookup(api, norm);
      && NoDup(l.keys)
      && (forall k :: k in l.entries <==> k in l.keys)
    decreases |api|
  {
    if api != [] {
      var p := api[..|api| - 1];
      BuildLookupKeys(p, norm);
      var l0 := BuildLookup(p, norm);
      var l := BuildLookup(api, norm);
      var k0 := norm(api[|api| - 1].name);
      if k0 !in l0.entries {
        forall i, j | 0 <= i < j < |l.keys| ensures l.keys[i] != l.keys[j] {
          if j == |l0.keys| {
            assert l.keys[i] == l0.keys[i];
          }
        }
      }
    }
  }

  function ApiNames(api: seq<ApiInstructor>, norm: string -> string): seq<string> {
    seq(|api|, i requires 0 <= i < |api| => norm(api[i].name))
  }

  /** The lookup has a key exactly for each normalised API name. */
  lemma {:induction false} BuildLookupDomain(api: seq<ApiInstructor>, norm: string -> string)
    ensures forall k :: k in BuildLookup(api, norm).entries <==> k in ApiNames(api, norm)
    decreases |api|
  {
    if api != [] {
      var p := api[..|api| - 1];
      BuildLookupDomain(p, norm);
      assert ApiNames(api, norm) == ApiNames(p, norm) + [norm(api[|api| - 1].name)];
    }
  }

  /** A later API instructor with the same normalised name overwrites an earlier one. */
  lemma {:induction false} BuildLookupLast(api: seq<ApiInstructor>, norm: string -> string, k: string)
    requires k in BuildLookup(api, norm).entries
    ensures exists i :: LastWithName(api, k, i, norm) && BuildLookup(api, norm).entries[k] == api[i]
    decreases |api|
  {
    var p := api[..|api| - 1];
    var k0 := norm(api[|api| - 1].name);
    if k == k0 {
      assert LastWithName(api, k, |api| - 1, norm);
    } else {
      BuildLookupLast(p, norm, k);
      var i :| LastWithName(p, k, i, norm) && BuildLookup(p, norm).entries[k] == p[i];
      assert api[i] == p[i];
      forall j | i < j < |api| ensures norm(api[j].name) != k {
        if j < |p| {
          assert api[j] == p[j];
        }
      }
      assert LastWithName(api, k, i, norm);
    }
  }

  /** `apiLookup.delete(k)`: the other keys keep their order. */
  function Delete(l: Lookup, k: string): Lookup {
    Lookup(Remove(l.keys, k), l.entries - {k})
  }

  /** `Array.from(apiLookup.values())`. */
  function Values(l: Lookup): seq<ApiInstructor> {
    ValuesOf(l.keys, l.entries)
  }

  function ValuesOf(keys: seq<string>, entries: map<string, ApiInstructor>): seq<ApiInstructor> {
    if keys == [] then []
    else ValuesOf(keys[..|keys| - 1], entries) + (if keys[|keys| - 1] in entries then [entries[keys[|keys| - 1]]] else [])
  }

  lemma {:induction false} ValuesOfMembers(keys: seq<string>, entries: map<string, ApiInstructor>)
    ensures forall a :: a in ValuesOf(keys, entries) ==> exists k :: k in keys && k in entries && entries[k] == a
    ensures (forall k :: k in keys ==> k in entries) ==> |ValuesOf(keys, entries)| == |keys|
    decreases |keys|
  {
    if keys != [] {
      var p := keys[..|keys| - 1];
      ValuesOfMembers(p, entries);
      forall a | a in ValuesOf(keys, entries) ensures exists k :: k in keys && k in entries && entries[k] == a {
        if a in ValuesOf(p, entries) {
          var k :| k in p && k in entries && entries[k] == a;
          assert k in keys;
        } else {
          assert keys[|keys| - 1] in keys;
        }
      }
      assert forall k :: k in p ==> k in keys;
    }
  }

  // =====================================================================
  // The migration
  // =====================================================================

  /** A write the live run sends to the instructor collection. */
  datatype Write =
    | SetCxids(id: int, cxids: seq<int>)
    | CreateInstructor(id: int, name: string, cxids: seq<int>, numReviews: int)

  datatype Stats = Stats(totalInMongoDB: nat, totalInAPI: nat, updated: nat, created: nat, skipped: nat, withMultipleCxids: nat)

  /** The state threaded through the two loops. */
  datatype Pass = Pass(lookup: Lookup, writes: seq<Write>, skips: seq<DbInstructor>, stats: Stats)

  /** One iteration of the update loop. */
  function MatchStep(p: Pass, db: DbInstructor, norm: string -> string): Pass {
    var n := norm(db.name);
    if n !in p.lookup.entries then
      p.(skips := p.skips + [db], stats := p.stats.(skipped := p.stats.skipped + 1))
    else
      var a := p.lookup.entries[n];
      Pass(Delete(p.lookup, n), p.writes + [SetCxids(db.id, a.cxids)], p.skips,
        p.stats.(updated := p.stats.updated + 1,
                 withMultipleCxids := p.stats.withMultipleCxids + (if |a.cxids| > 1 then 1 else 0)))
  }

  /** The update loop over the stored instructors. */
  function MatchAll(dbs: seq<DbInstructor>, p0: Pass, norm: string -> string): Pass {
    if dbs == [] then p0 else MatchStep(MatchAll(dbs[..|dbs| - 1], p0, norm), dbs[|dbs| - 1], norm)
  }

  /** One iteration of the create loop. */
  function CreateStep(p: Pass, nextId: int, a: ApiInstructor): Pass {
    p.(writes := p.writes + [CreateInstructor(nextId, a.name, a.cxids, 0)], stats := p.stats.(created := p.stats.created + 1))
  }

  /** The create loop over the remaining API instructors, with ids from nextId on. */
  function CreateAll(news: seq<ApiInstructor>, nextId: int, p0: Pass): Pass {
    if news == [] then p0 else CreateStep(CreateAll(news[..|news| - 1], nextId, p0), nextId + |news| - 1, news[|news| - 1])
  }

  function DbIds(dbs: seq<DbInstructor>): seq<int> {
    seq(|dbs|, i requires 0 <= i < |dbs| => dbs[i].id)
  }

  function DbNames(dbs: seq<DbInstructor>, norm: string -> string): seq<string> {
    seq(|dbs|, i requires 0 <= i < |dbs| => norm(dbs[i].name))
  }

  function ByReviews(d: DbInstructor): int { d.numReviews }

  datatype Outcome = Outcome(writes: seq<Write>, stats: Stats, skipList: seq<DbInstructor>)

  /** migrateInstructors on a live run, matching by norm. */
  function Migration(dbs: seq<DbInstructor>, api: seq<ApiInstructor>, norm: string -> string): Outcome {
    var p := Finished(dbs, api, norm);
    Outcome(p.writes, p.stats, SortDesc(p.skips, ByReviews))
  }

  /** Before the loops: the full lookup and zero counters. */
  function Start(dbs: seq<DbInstructor>, api: seq<ApiInstructor>, norm: string -> string): Pass {
    Pass(BuildLookup(api, norm), [], [], Stats(|dbs|, |api|, 0, 0, 0, 0))
  }

  /** After the update loop. */
  function Updated(dbs: seq<DbInstructor>, api: seq<ApiInstructor>, norm: string -> string): Pass {
    MatchAll(dbs, Start(dbs, api, norm), norm)
  }

  /** The API instructors left in the lookup: the ones to create. */
  function Leftover(dbs: seq<DbInstructor>, api: seq<ApiInstructor>, norm: string -> string): seq<ApiInstructor> {
    Values(Updated(dbs, api, norm).lookup)
  }

  /** After the create loop. */
  function Finished(dbs: seq<DbInstructor>, api: seq<ApiInstructor>, norm: string -> string): Pass {
    CreateAll(Leftover(dbs, api, norm), NextId(DbIds(dbs)), Updated(dbs, api, norm))
  }

  // ---------------------------------------------------------------------
  // The update loop
  // ---------------------------------------------------------------------

  ghost predicate WellFormed(l: Lookup) {
    NoDup(l.keys) && forall k :: k in l.entries <==> k in l.keys
  }

  /**
   * After the update loop the lookup holds exactly the entries whose name
   * no stored instructor has, unchanged; every stored instructor was either
   * updated or skipped.
   */
  lemma {:induction false} MatchAllLookup(dbs: seq<DbInstructor>, p0: Pass, norm: string -> string)
    requires WellFormed(p0.lookup)
    ensures var p := MatchAll(dbs, p0, norm);
      && WellFormed(p.lookup)
      && (forall k :: k in p.lookup.entries <==> k in p0.lookup.entries && k !in DbNames(dbs, norm))
      && (forall k :: k in p.lookup.entries ==> p.lookup.entries[k] == p0.lookup.entries[k])
      && p.stats.updated + p.stats.skipped == p0.stats.updated + p0.stats.skipped + |dbs|
      && |p.writes| == |p0.writes| + p.stats.updated - p0.stats.updated
      && p.stats.created == p0.stats.created
      && p.stats.totalInMongoDB == p0.stats.totalInMongoDB && p.stats.totalInAPI == p0.stats.totalInAPI
    decreases |dbs|
  {
    if dbs != [] {
      var q := dbs[..|dbs| - 1];
      MatchAllLookup(q, p0, norm);
      assert DbNames(dbs, norm) == DbNames(q, norm) + [norm(dbs[|dbs| - 1].name)];
    }
  }

  /** A stored instructor is matched when its name is in the API data and no earlier stored instructor has it. */
  predicate Matched(dbs: seq<DbInstructor>, l: Lookup, j: int, norm: string -> string)
    requires 0 <= j < |dbs|
  {
    norm(dbs[j].name) in l.entries && norm(dbs[j].name) !in DbNames(dbs[..j], norm)
  }

  /**
   * Each stored instructor is updated with the cxids of its API match
   * exactly when it is the first with that name, and is listed as skipped
   * otherwise.
   */
  lemma {:induction false} MatchAllOutcome(dbs: seq<DbInstructor>, p0: Pass, norm: string -> string)
    requires WellFormed(p0.lookup)
    ensures var p := MatchAll(dbs, p0, norm);
      forall j :: 0 <= j < |dbs| ==>
        if Matched(dbs, p0.lookup, j, norm) then SetCxids(dbs[j].id, p0.lookup.entries[norm(dbs[j].name)].cxids) in p.writes
        else dbs[j] in p.skips
    ensures var p := MatchAll(dbs, p0, norm);
      forall x :: x in p.skips ==> x in p0.skips || x in dbs
    decreases |dbs|
  {
    if dbs != [] {
      var q := dbs[..|dbs| - 1];
      var d := dbs[|dbs| - 1];
      MatchAllOutcome(q, p0, norm);
      MatchAllLookup(q, p0, norm);
      var pq := MatchAll(q, p0, norm);
      forall j | 0 <= j < |dbs|
        ensures if Matched(dbs, p0.lookup, j, norm) then SetCxids(dbs[j].id, p0.lookup.entries[norm(dbs[j].name)].cxids) in MatchAll(dbs, p0, norm).writes
          else dbs[j] in MatchAll(dbs, p0, norm).skips
      {
        assert dbs[..j] == q[..j] || j == |q|;
        if j < |q| {
          assert dbs[j] == q[j] && dbs[..j] == q[..j];
          assert Matched(dbs, p0.lookup, j, norm) == Matched(q, p0.lookup, j, norm);
        } else {
          assert dbs[..j] == q;
        }
      }
    }
  }

  /** A second stored instructor with an already-matched name is skipped, not updated again. */
  lemma SecondSameNameSkipped(dbs: seq<DbInstructor>, p0: Pass, i: int, j: int, norm: string -> string)
    requires WellFormed(p0.lookup)
    requires 0 <= i < j < |dbs| && norm(dbs[i].name) == norm(dbs[j].name)
    ensures dbs[j] in MatchAll(dbs, p0, norm).skips
  {
    assert dbs[..j][i] == dbs[i];
    assert DbNames(dbs[..j], norm)[i] == norm(dbs[i].name);
    MatchAllOutcome(dbs, p0, norm);
  }

  // ---------------------------------------------------------------------
  // The create loop
  // ---------------------------------------------------------------------

  /** The create loop issues one creation per remaining instructor, with ids nextId, nextId + 1, ... and no reviews. */
  lemma {:induction false} CreateAllMeaning(news: seq<ApiInstructor>, nextId: int, p0: Pass)
    ensures var p := CreateAll(news, nextId, p0);
      && p.stats.created == p0.stats.created + |news|
      && p.stats.updated == p0.stats.updated && p.stats.skipped == p0.stats.skipped
      && p.skips == p0.skips && p.lookup == p0.lookup
      && p.stats.totalInMongoDB == p0.stats.totalInMongoDB && p.stats.totalInAPI == p0.stats.totalInAPI
      && |p.writes| == |p0.writes| + |news|
      && p.writes[..|p0.writes|] == p0.writes
      && (forall i :: 0 <= i < |news| ==> p.writes[|p0.writes| + i] == CreateInstructor(nextId + i, news[i].name, news[i].cxids, 0))
    decreases |news|
  {
    if news != [] {
      var q := news[..|news| - 1];
      CreateAllMeaning(q, nextId, p0);
      var pq := CreateAll(q, nextId, p0);
      var p := CreateAll(news, nextId, p0);
      assert p.writes == pq.writes + [CreateInstructor(nextId + |q|, news[|q|].name, news[|q|].cxids, 0)];
      forall i | 0 <= i < |news| ensures p.writes[|p0.writes| + i] == CreateInstructor(nextId + i, news[i].name, news[i].cxids, 0) {
        if i < |q| {
          assert news[i] == q[i];
        }
      }
    }
  }

  // ---------------------------------------------------------------------
  // The whole migration
  // ---------------------------------------------------------------------

  /**
   * The migration's counters: every stored instructor is updated or
   * skipped, and one instructor is created per API name no stored
   * instructor has.
   */
  lemma MigrationCounts(dbs: seq<DbInstructor>, api: seq<ApiInstructor>, norm: string -> string)
    ensures var o := Migration(dbs, api, norm);
      && o.stats.totalInMongoDB == |dbs| && o.stats.totalInAPI == |api|
      && o.stats.updated + o.stats.skipped == |dbs|
      && |o.skipList| == o.stats.skipped
      && |o.writes| == o.stats.updated + o.stats.created
  {
    var p0 := Start(dbs, api, norm);
    BuildLookupKeys(api, norm);
    MatchAllLookup(dbs, p0, norm);
    SkipsCount(dbs, p0, norm);
    CreateAllMeaning(Leftover(dbs, api, norm), NextId(DbIds(dbs)), Updated(dbs, api, norm));
  }

  lemma {:induction false} SkipsCount(dbs: seq<DbInstructor>, p0: Pass, norm: string -> string)
    ensures |MatchAll(dbs, p0, norm).skips| - |p0.skips| == MatchAll(dbs, p0, norm).stats.skipped - p0.stats.skipped
    ensures |MatchAll(dbs, p0, norm).skips| >= |p0.skips| && MatchAll(dbs, p0, norm).stats.skipped >= p0.stats.skipped
    decreases |dbs|
  {
    if dbs != [] {
      SkipsCount(dbs[..|dbs| - 1], p0, norm);
    }
  }

  /**
   * A created instructor never duplicates a stored one: its name is an
   * API name whose normalisation no stored instructor has, it has no
   * reviews, and its id continues the run from one more than the largest
   * stored id (so it exceeds every stored id).
   */
  lemma CreatedWrite(dbs: seq<DbInstructor>, api: seq<ApiInstructor>, norm: string -> string, m: int)
    requires 0 <= m < |Migration(dbs, api, norm).writes| && Migration(dbs, api, norm).writes[m].CreateInstructor?
    ensures var o := Migration(dbs, api, norm);
      var w := o.writes[m];
      && norm(w.name) !in DbNames(dbs, norm)
      && (exists i :: 0 <= i < |api| && api[i].name == w.name && api[i].cxids == w.cxids)
      && w.numReviews == 0
      && o.stats.updated <= m
      && w.id == NextId(DbIds(dbs)) + (m - o.stats.updated)
      && (forall d :: d in dbs ==> d.id < w.id)
  {
    var p0 := Start(dbs, api, norm);
    var p1 := Updated(dbs, api, norm);
    var news := Leftover(dbs, api, norm);
    var next := NextId(DbIds(dbs));
    var ws := Finished(dbs, api, norm).writes;
    assert m >= |p1.writes| by {
      UpdatesFirst(dbs, p0, norm, news, next);
    }
    var i := m - |p1.writes|;
    CreateAllAt(news, next, p1, m);
    assert Finished(dbs, api, norm).stats.updated == |p1.writes| by {
      BuildLookupKeys(api, norm);
      MatchAllLookup(dbs, p0, norm);
      CreateAllMeaning(news, next, p1);
    }
    var w := ws[m];
    assert w == CreateInstructor(next + i, news[i].name, news[i].cxids, 0);
    Remaining(dbs, api, norm, news[i]);
    var n :| 0 <= n < |api| && api[n] == news[i];
    assert api[n].name == w.name && api[n].cxids == w.cxids;
    forall d | d in dbs ensures d.id < w.id {
      var e :| 0 <= e < |dbs| && dbs[e] == d;
      assert DbIds(dbs)[e] == d.id;
    }
  }

  /** The writes of the update loop come before the creations and only set cxids. */
  lemma UpdatesFirst(dbs: seq<DbInstructor>, p0: Pass, norm: string -> string, news: seq<ApiInstructor>, next: int)
    requires p0.writes == []
    ensures var p1 := MatchAll(dbs, p0, norm);
      forall j :: 0 <= j < |p1.writes| ==> j < |CreateAll(news, next, p1).writes| && CreateAll(news, next, p1).writes[j].SetCxids?
  {
    var p1 := MatchAll(dbs, p0, norm);
    MatchAllWrites(dbs, p0, norm);
    CreateAllMeaning(news, next, p1);
    var ws := CreateAll(news, next, p1).writes;
    forall j | 0 <= j < |p1.writes| ensures j < |ws| && ws[j].SetCxids? {
      assert ws[..|p1.writes|][j] == ws[j];
    }
  }

  /** The m-th write after the update loop creates the corresponding remaining instructor. */
  lemma CreateAllAt(news: seq<ApiInstructor>, next: int, p1: Pass, m: int)
    requires |p1.writes| <= m < |CreateAll(news, next, p1).writes|
    ensures m - |p1.writes| < |news|
    ensures var i := m - |p1.writes|;
      CreateAll(news, next, p1).writes[m] == CreateInstructor(next + i, news[i].name, news[i].cxids, 0)
  {
    CreateAllMeaning(news, next, p1);
    var i := m - |p1.writes|;
    assert m == |p1.writes| + i;
  }

  /** Each API instructor left for creation is one whose normalised name no stored instructor has. */
  lemma Remaining(dbs: seq<DbInstructor>, api: seq<ApiInstructor>, norm: string -> string, a: ApiInstructor)
    requires a in Leftover(dbs, api, norm)
    ensures norm(a.name) !in DbNames(dbs, norm)
    ensures exists i :: 0 <= i < |api| && api[i] == a
  {
    var l0 := BuildLookup(api, norm);
    var p0 := Start(dbs, api, norm);
    BuildLookupKeys(api, norm);
    MatchAllLookup(dbs, p0, norm);
    var p1 := Updated(dbs, api, norm);
    ValuesOfMembers(p1.lookup.keys, p1.lookup.entries);
    var k :| k in p1.lookup.keys && k in p1.lookup.entries && p1.lookup.entries[k] == a;
    assert k !in DbNames(dbs, norm) && l0.entries[k] == a;
    BuildLookupLast(api, norm, k);
    var n :| LastWithName(api, k, n, norm) && l0.entries[k] == api[n];
  }

  /** Created ids are distinct and increasing in creation order. */
  lemma CreatedIdsIncrease(dbs: seq<DbInstructor>, api: seq<ApiInstructor>, norm: string -> string)
    ensures var o := Migration(dbs, api, norm);
      forall i, j :: 0 <= i < j < |o.writes| && o.writes[i].CreateInstructor? && o.writes[j].CreateInstructor? ==> o.writes[i].id < o.writes[j].id
  {
    var o := Migration(dbs, api, norm);
    forall i, j | 0 <= i < j < |o.writes| && o.writes[i].CreateInstructor? && o.writes[j].CreateInstructor?
      ensures o.writes[i].id < o.writes[j].id
    {
      CreatedWrite(dbs, api, norm, i);
      CreatedWrite(dbs, api, norm, j);
    }
  }

  /** The update loop only sets cxids. */
  lemma {:induction false} MatchAllWrites(dbs: seq<DbInstructor>, p0: Pass, norm: string -> string)
    ensures var p := MatchAll(dbs, p0, norm);
      && |p.writes| >= |p0.writes| && p.writes[..|p0.writes|] == p0.writes
      && forall i :: |p0.writes| <= i < |p.writes| ==> p.writes[i].SetCxids?
    decreases |dbs|
  {
    if dbs != [] {
      MatchAllWrites(dbs[..|dbs| - 1], p0, norm);
    }
  }

  /** The skip list holds the skipped instructors, most reviewed first. */
  lemma MigrationSkipList(dbs: seq<DbInstructor>, api: seq<ApiInstructor>, norm: string -> string)
    ensures var o := Migration(dbs, api, norm);
      && (forall i, j :: 0 <= i < j < |o.skipList| ==> o.skipList[i].numReviews >= o.skipList[j].numReviews)
      && (forall d :: d in o.skipList ==> d in dbs)
      && (forall j :: 0 <= j < |dbs| && norm(dbs[j].name) !in BuildLookup(api, norm).entries ==> dbs[j] in o.skipList)
  {
    var p0 := Start(dbs, api, norm);
    BuildLookupKeys(api, norm);
    MatchAllOutcome(dbs, p0, norm);
    var p1 := Updated(dbs, api, norm);
    var p2 := Finished(dbs, api, norm);
    CreateAllMeaning(Leftover(dbs, api, norm), NextId(DbIds(dbs)), p1);
    SortDescMembers(p2.skips, ByReviews);
    var o := Migration(dbs, api, norm);
    forall i, j | 0 <= i < j < |o.skipList| ensures o.skipList[i].numReviews >= o.skipList[j].numReviews {
      assert ByReviews(o.skipList[i]) >= ByReviews(o.skipList[j]);
    }
    forall d | d in o.skipList ensures d in dbs {
      var m :| 0 <= m < |o.skipList| && o.skipList[m] == d;
    }
    forall j | 0 <= j < |dbs| && norm(dbs[j].name) !in BuildLookup(api, norm).entries ensures dbs[j] in o.skipList {
      assert !Matched(dbs, p0.lookup, j, norm);
      var m :| 0 <= m < |p2.skips| && p2.skips[m] == dbs[j];
    }
  }

  // ---------------------------------------------------------------------
  // The loops
  // ---------------------------------------------------------------------

  /**
   * migrateInstructors: a dry run issues no writes and computes the same
   * counters and skip list.
   */
  method MigrateInstructors(dbs: seq<DbInstructor>, api: seq<ApiInstructor>, dryRun: bool)
    returns (writes: seq<Write>, stats: Stats, skipList: seq<DbInstructor>)
    ensures writes == (if dryRun then [] else Migration(dbs, api, NormalizeName).writes)
    ensures stats == Migration(dbs, api, NormalizeName).stats
    ensures skipList == Migration(dbs, api, NormalizeName).skipList
  {
    var lookup := Lookup([], map[]);
    var i := 0;
    while i < |api|
      invariant 0 <= i <= |api|
      invariant lookup == BuildLookup(api[..i], NormalizeName)
    {
      assert api[..i + 1][..i] == api[..i];
      var k := NormalizeName(api[i].name);
      if k in lookup.entries {
        lookup := lookup.(entries := lookup.entries[k := api[i]]);
      } else {
        lookup := Lookup(lookup.keys + [k], lookup.entries[k := api[i]]);
      }
      i := i + 1;
    }
    assert api[..|api|] == api;
    var p0 := Pass(lookup, [], [], Stats(|dbs|, |api|, 0, 0, 0, 0));
    var p := MatchPass(dbs, p0, NormalizeName);
    var news := Values(p.lookup);
    var nextId := NextId(DbIds(dbs));
    p := CreatePass(news, nextId, p);
    writes := if dryRun then [] else p.writes;
    stats := p.stats;
    skipList := SortDesc(p.skips, ByReviews);
  }

  /** The update loop. */
  method MatchPass(dbs: seq<DbInstructor>, p0: Pass, norm: string -> string) returns (p: Pass)
    ensures p == MatchAll(dbs, p0, norm)
  {
    p := p0;
    var j := 0;
    while j < |dbs|
      invariant 0 <= j <= |dbs|
      invariant p == MatchAll(dbs[..j], p0, norm)
    {
      assert dbs[..j + 1][..j] == dbs[..j];
      var normalizedName := norm(dbs[j].name);
      if normalizedName !in p.lookup.entries {
        p := p.(skips := p.skips + [dbs[j]], stats := p.stats.(skipped := p.stats.skipped + 1));
      } else {
        var apiData := p.lookup.entries[normalizedName];
        var extra := if |apiData.cxids| > 1 then 1 else 0;
        p := Pass(Delete(p.lookup, normalizedName), p.writes + [SetCxids(dbs[j].id, apiData.cxids)], p.skips,
          p.stats.(updated := p.stats.updated + 1, withMultipleCxids := p.stats.withMultipleCxids + extra));
      }
      j := j + 1;
    }
    assert dbs[..|dbs|] == dbs;
  }

  /** The create loop. */
  method CreatePass(news: seq<ApiInstructor>, nextId0: int, p0: Pass) returns (p: Pass)
    ensures p == CreateAll(news, nextId0, p0)
  {
    p := p0;
    var nextId := nextId0;
    var j := 0;
    while j < |news|
      invariant 0 <= j <= |news|
      invariant nextId == nextId0 + j
      invariant p == CreateAll(news[..j], nextId0, p0)
    {
      assert news[..j + 1][..j] == news[..j];
      p := p.(writes := p.writes + [CreateInstructor(nextId, news[j].name, news[j].cxids, 0)], stats := p.stats.(created := p.stats.created + 1));
      nextId := nextId + 1;
      j := j + 1;
    }
    assert news[..|news|] == news;
  }
}
