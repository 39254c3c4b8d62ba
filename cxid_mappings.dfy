/**
 * The aggregation phase of the CxID mapping script: every instructor entry
 * of every fetched course becomes one mapping record, and two
 * insertion-ordered maps of sets collect the CxIDs seen per instructor name
 * and per hyphenated course key; both are then written out with each set
 * in the default (string) order of Array.prototype.sort.
 */
module CxIDMappings {
  import opened Util
  import opened CourseCodes

  // =====================================================================
  // Data
  // =====================================================================

  /** An instructor entry; an empty name or a zero CxID counts as missing. */
  datatype ApiInstructor = ApiInstructor(name: string, cxid: int)

  /** An API course; `instructors` is None when the field is absent or not an array. */
  datatype ApiCourse = ApiCourse(
    courseCode: string,
    primaryAssociation: string,
    instructors: Option<seq<Option<ApiInstructor>>>)

  /** One course as returned for one (term, area) request, in request order. */
  datatype Fetched = Fetched(termKey: string, course: ApiCourse)

  datatype CxIDMapping = CxIDMapping(courseCode: string, termKey: string, instructorName: string, cxid: int)

  /**
   * A Map<string, Set<number>>: its keys in insertion order, and for each
   * key the members of its set in insertion order.
   */
  datatype SetMap = SetMap(keys: seq<string>, sets: map<string, seq<int>>)

  /** The script's state at the end of the fetch loop. */
  datatype Aggregation = Aggregation(
    mappings: seq<CxIDMapping>,
    instructorCxIDs: SetMap,
    courseCxIDs: SetMap,
    totalCourses: nat,
    totalInstructors: nat,
    coursesWithoutInstructors: nat)

  // =====================================================================
  // Reference definitions
  // =====================================================================

  predicate HasInstructors(c: ApiCourse) {
    c.instructors.Some? && |c.instructors.value| > 0
  }

  /** `!instructor || !instructor.Name || !instructor.CxID` fails. */
  predicate ValidInstructor(e: Option<ApiInstructor>) {
    e.Some? && e.value.name != "" && e.value.cxid != 0
  }

  /** The mapping records one course's instructor list yields, in list order. */
  function Entries(termKey: string, key: string, insts: seq<Option<ApiInstructor>>): (r: seq<CxIDMapping>)
    ensures |r| <= |insts|
  {
    if insts == [] then []
    else
      var last := insts[|insts| - 1];
      Entries(termKey, key, insts[..|insts| - 1])
      + (if ValidInstructor(last) then [CxIDMapping(key, termKey, last.value.name, last.value.cxid)] else [])
  }

  function CourseEntries(f: Fetched): seq<CxIDMapping> {
    if HasInstructors(f.course)
    then Entries(f.termKey, CourseKey(f.course.courseCode, f.course.primaryAssociation), f.course.instructors.value)
    else []
  }

  /** All mapping records, in fetch order. */
  function Mappings(fs: seq<Fetched>): seq<CxIDMapping> {
    if fs == [] then [] else Mappings(fs[..|fs| - 1]) + CourseEntries(fs[|fs| - 1])
  }

  /** The course keys in the order they are first registered (duplicates kept). */
  function CourseKeysOf(fs: seq<Fetched>): seq<string> {
    if fs == [] then []
    else
      var f := fs[|fs| - 1];
      CourseKeysOf(fs[..|fs| - 1])
      + (if HasInstructors(f.course) then [CourseKey(f.course.courseCode, f.course.primaryAssociation)] else [])
  }

  function WithoutInstructors(fs: seq<Fetched>): nat {
    if fs == [] then 0
    else WithoutInstructors(fs[..|fs| - 1]) + (if HasInstructors(fs[|fs| - 1].course) then 0 else 1)
  }

  function NamesOf(ms: seq<CxIDMapping>): (r: seq<string>)
    ensures |r| == |ms| && forall i :: 0 <= i < |ms| ==> r[i] == ms[i].instructorName
  {
    seq(|ms|, i requires 0 <= i < |ms| => ms[i].instructorName)
  }

  function NamePairs(ms: seq<CxIDMapping>): (r: seq<(string, int)>)
    ensures |r| == |ms| && forall i :: 0 <= i < |ms| ==> r[i] == (ms[i].instructorName, ms[i].cxid)
  {
    seq(|ms|, i requires 0 <= i < |ms| => (ms[i].instructorName, ms[i].cxid))
  }

  function CoursePairs(ms: seq<CxIDMapping>): (r: seq<(string, int)>)
    ensures |r| == |ms| && forall i :: 0 <= i < |ms| ==> r[i] == (ms[i].courseCode, ms[i].cxid)
  {
    seq(|ms|, i requires 0 <= i < |ms| => (ms[i].courseCode, ms[i].cxid))
  }

  /** The values paired with key k, in order. */
  function ValuesOf(ps: seq<(string, int)>, k: string): (r: seq<int>)
    ensures forall x :: x in r <==> (exists j :: 0 <= j < |ps| && ps[j] == (k, x))
  {
    if ps == [] then []
    else
      var p := ps[..|ps| - 1];
      var r := ValuesOf(p, k) + (if ps[|ps| - 1].0 == k then [ps[|ps| - 1].1] else []);
      assert forall j :: 0 <= j < |ps| - 1 ==> ps[j] == p[j];
      r
  }

  /**
   * m is the map built from the key registrations ks and the (key, value)
   * additions ps: the keys in order of first registration, each set
   * holding its values in order of first addition, and no value added
   * under an unregistered key.
   */
  ghost predicate Indexes(ks: seq<string>, ps: seq<(string, int)>, m: SetMap) {
    && m.keys == Distinct(ks)
    && (forall k :: k in m.sets <==> k in m.keys)
    && (forall k :: k in m.sets ==> m.sets[k] == Distinct(ValuesOf(ps, k)))
    && (forall k :: k !in m.sets ==> ValuesOf(ps, k) == [])
  }

  // =====================================================================
  // Map-of-sets updates
  // =====================================================================

  /** `if (!map.has(k)) map.set(k, new Set())`. */
  function Register(m: SetMap, k: string): SetMap {
    if k in m.sets then m else SetMap(m.keys + [k], m.sets[k := []])
  }

  /** `map.get(k)!.add(x)` on a registered key. */
  function Add(m: SetMap, k: string, x: int): SetMap
    requires k in m.sets
  {
    m.(sets := m.sets[k := if x in m.sets[k] then m.sets[k] else m.sets[k] + [x]])
  }

  /** Registering a key keeps the index, with the registration recorded. */
  lemma IndexRegister(ks: seq<string>, ps: seq<(string, int)>, m: SetMap, k: string)
    requires Indexes(ks, ps, m)
    ensures Indexes(ks + [k], ps, Register(m, k)) && k in Register(m, k).sets
  {
    DistinctSnoc(ks, k);
    assert k in m.sets <==> k in ks;
    if k !in m.sets {
      IndexRegisterNew(ks, ps, m, k);
    }
  }

  lemma IndexRegisterNew(ks: seq<string>, ps: seq<(string, int)>, m: SetMap, k: string)
    requires Indexes(ks, ps, m) && k !in m.sets
    ensures Indexes(ks + [k], ps, SetMap(m.keys + [k], m.sets[k := []]))
  {
    var m' := SetMap(m.keys + [k], m.sets[k := []]);
    DistinctSnoc(ks, k);
    assert k !in ks;
    assert ValuesOf(ps, k) == [];
    assert Distinct(ValuesOf(ps, k)) == [];
    forall k' | k' in m'.sets ensures m'.sets[k'] == Distinct(ValuesOf(ps, k')) {
      if k' != k {
        assert k' in m.sets;
      }
    }
    forall k' | k' !in m'.sets ensures ValuesOf(ps, k') == [] {
      assert k' !in m.sets;
    }
  }

  lemma ValuesSnoc(ps: seq<(string, int)>, p: (string, int), k: string)
    ensures ValuesOf(ps + [p], k) == ValuesOf(ps, k) + (if p.0 == k then [p.1] else [])
  {
    assert (ps + [p])[..|ps|] == ps;
  }

  /** Adding to a registered key's set keeps the index, with the addition recorded. */
  lemma IndexAdd(ks: seq<string>, ps: seq<(string, int)>, m: SetMap, k: string, x: int)
    requires Indexes(ks, ps, m) && k in m.sets
    ensures Indexes(ks, ps + [(k, x)], Add(m, k, x))
  {
    var ps' := ps + [(k, x)];
    var sets' := Add(m, k, x).sets;
    forall k' | k' in sets' ensures sets'[k'] == Distinct(ValuesOf(ps', k')) {
      ValuesSnoc(ps, (k, x), k');
      if k' == k {
        DistinctSnoc(ValuesOf(ps, k), x);
        assert x in m.sets[k] <==> x in ValuesOf(ps, k);
      } else {
        assert ValuesOf(ps', k') == ValuesOf(ps, k') + [];
        assert ValuesOf(ps, k') + [] == ValuesOf(ps, k');
      }
    }
    forall k' | k' !in sets' ensures ValuesOf(ps', k') == [] {
      ValuesSnoc(ps, (k, x), k');
    }
  }

  lemma NamesSnoc(ms: seq<CxIDMapping>, m: CxIDMapping)
    ensures NamesOf(ms + [m]) == NamesOf(ms) + [m.instructorName]
    ensures NamePairs(ms + [m]) == NamePairs(ms) + [(m.instructorName, m.cxid)]
    ensures CoursePairs(ms + [m]) == CoursePairs(ms) + [(m.courseCode, m.cxid)]
  {
  }

  /** Both maps index the mappings pushed so far; the course keys registered are ks. */
  ghost predicate Tracks(a: Aggregation, ks: seq<string>) {
    && Indexes(NamesOf(a.mappings), NamePairs(a.mappings), a.instructorCxIDs)
    && Indexes(ks, CoursePairs(a.mappings), a.courseCxIDs)
  }

  /**
   * One valid instructor entry: push the mapping, then add its CxID to the
   * set of its instructor name (registering the name if new) and to the
   * set of its course key.
   */
  function AddEntry(a: Aggregation, m: CxIDMapping): Aggregation
    requires m.courseCode in a.courseCxIDs.sets
  {
    var inst := Register(a.instructorCxIDs, m.instructorName);
    a.(mappings := a.mappings + [m],
       totalInstructors := a.totalInstructors + 1,
       instructorCxIDs := Add(inst, m.instructorName, m.cxid),
       courseCxIDs := Add(a.courseCxIDs, m.courseCode, m.cxid))
  }

  /** Each entry keeps both maps indexing the mappings. */
  lemma EntryKeepsTracks(a: Aggregation, ks: seq<string>, m: CxIDMapping)
    requires Tracks(a, ks) && m.courseCode in a.courseCxIDs.sets
    ensures Tracks(AddEntry(a, m), ks)
  {
    NamesSnoc(a.mappings, m);
    IndexRegister(NamesOf(a.mappings), NamePairs(a.mappings), a.instructorCxIDs, m.instructorName);
    var inst := Register(a.instructorCxIDs, m.instructorName);
    IndexAdd(NamesOf(a.mappings) + [m.instructorName], NamePairs(a.mappings), inst, m.instructorName, m.cxid);
    IndexAdd(ks, CoursePairs(a.mappings), a.courseCxIDs, m.courseCode, m.cxid);
  }

  /** The inner loop over one course's instructor list, entry by entry. */
  function AddEntries(a: Aggregation, termKey: string, key: string, insts: seq<Option<ApiInstructor>>): (r: Aggregation)
    requires key in a.courseCxIDs.sets
    ensures key in r.courseCxIDs.sets
  {
    if insts == [] then a
    else
      var b := AddEntries(a, termKey, key, insts[..|insts| - 1]);
      var e := insts[|insts| - 1];
      if ValidInstructor(e) then AddEntry(b, CxIDMapping(key, termKey, e.value.name, e.value.cxid)) else b
  }

  /** A course with an instructor list: register its key, then add its entries. */
  function AddListed(a: Aggregation, termKey: string, key: string, insts: seq<Option<ApiInstructor>>): Aggregation {
    AddEntries(a.(courseCxIDs := Register(a.courseCxIDs, key)), termKey, key, insts)
  }

  /** One fetched course: count it, and skip it or add it. */
  function AddCourse(a: Aggregation, f: Fetched): Aggregation {
    var a1 := a.(totalCourses := a.totalCourses + 1);
    if !HasInstructors(f.course) then a1.(coursesWithoutInstructors := a1.coursesWithoutInstructors + 1)
    else AddListed(a1, f.termKey, CourseKey(f.course.courseCode, f.course.primaryAssociation), f.course.instructors.value)
  }

  const Empty := Aggregation([], SetMap([], map[]), SetMap([], map[]), 0, 0, 0)

  /** The state after the fetch loop has processed fs. */
  function Aggregate(fs: seq<Fetched>): Aggregation {
    if fs == [] then Empty else AddCourse(Aggregate(fs[..|fs| - 1]), fs[|fs| - 1])
  }

  // =====================================================================
  // What the aggregation means
  // =====================================================================

  /** The inner loop pushes exactly the course's valid entries, and counts them. */
  lemma {:induction false} AddEntriesCounts(a: Aggregation, termKey: string, key: string, insts: seq<Option<ApiInstructor>>)
    requires key in a.courseCxIDs.sets
    ensures var r := AddEntries(a, termKey, key, insts);
      && r.mappings == a.mappings + Entries(termKey, key, insts)
      && r.totalInstructors == a.totalInstructors + |Entries(termKey, key, insts)|
      && r.totalCourses == a.totalCourses && r.coursesWithoutInstructors == a.coursesWithoutInstructors
    decreases |insts|
  {
    if insts != [] {
      AddEntriesCounts(a, termKey, key, insts[..|insts| - 1]);
    }
  }

  /** The inner loop keeps both maps indexing the mappings. */
  lemma {:induction false} AddEntriesMeaning(a: Aggregation, termKey: string, key: string, insts: seq<Option<ApiInstructor>>, ks: seq<string>)
    requires key in a.courseCxIDs.sets && Tracks(a, ks)
    ensures Tracks(AddEntries(a, termKey, key, insts), ks)
    decreases |insts|
  {
    if insts != [] {
      var p := insts[..|insts| - 1];
      AddEntriesMeaning(a, termKey, key, p, ks);
      var b := AddEntries(a, termKey, key, p);
      var e := insts[|insts| - 1];
      if ValidInstructor(e) {
        EntryKeepsTracks(b, ks, CxIDMapping(key, termKey, e.value.name, e.value.cxid));
      }
    }
  }

  /** Registering a course key and adding its entries keeps both maps indexing the mappings. */
  lemma AddListedTracks(a: Aggregation, termKey: string, key: string, insts: seq<Option<ApiInstructor>>, ks: seq<string>)
    requires Tracks(a, ks)
    ensures Tracks(AddListed(a, termKey, key, insts), ks + [key])
  {
    IndexRegister(ks, CoursePairs(a.mappings), a.courseCxIDs, key);
    var a2 := a.(courseCxIDs := Register(a.courseCxIDs, key));
    assert Tracks(a2, ks + [key]);
    AddEntriesMeaning(a2, termKey, key, insts, ks + [key]);
  }

  lemma AddListedCounts(a: Aggregation, termKey: string, key: string, insts: seq<Option<ApiInstructor>>)
    ensures var r := AddListed(a, termKey, key, insts);
      && r.mappings == a.mappings + Entries(termKey, key, insts)
      && r.totalInstructors == a.totalInstructors + |Entries(termKey, key, insts)|
      && r.totalCourses == a.totalCourses && r.coursesWithoutInstructors == a.coursesWithoutInstructors
  {
    AddEntriesCounts(a.(courseCxIDs := Register(a.courseCxIDs, key)), termKey, key, insts);
  }

  /** The counters and the mapping records after the fetch loop agree with the reference definitions. */
  lemma {:induction false} AggregateCounts(fs: seq<Fetched>)
    ensures var a := Aggregate(fs);
      && a.mappings == Mappings(fs)
      && a.totalCourses == |fs|
      && a.totalInstructors == |a.mappings|
      && a.coursesWithoutInstructors == WithoutInstructors(fs)
    decreases |fs|
  {
    if fs != [] {
      var p := fs[..|fs| - 1];
      var f := fs[|fs| - 1];
      AggregateCounts(p);
      var a := Aggregate(p);
      if HasInstructors(f.course) {
        var key := CourseKey(f.course.courseCode, f.course.primaryAssociation);
        AddListedCounts(a.(totalCourses := a.totalCourses + 1), f.termKey, key, f.course.instructors.value);
      }
    }
  }

  lemma AggregateStep(fs: seq<Fetched>)
    requires fs != []
    ensures Aggregate(fs) == AddCourse(Aggregate(fs[..|fs| - 1]), fs[|fs| - 1])
  {
  }

  lemma TracksSame(a: Aggregation, b: Aggregation, ks: seq<string>)
    requires Tracks(a, ks)
    requires a.mappings == b.mappings && a.instructorCxIDs == b.instructorCxIDs && a.courseCxIDs == b.courseCxIDs
    ensures Tracks(b, ks)
  {
  }

  /**
   * After the fetch loop the instructor map indexes the mappings by
   * instructor name, and the course map indexes them by course key, its
   * keys being those of the courses that had an instructor list.
   */
  lemma {:induction false} AggregateTracks(fs: seq<Fetched>)
    ensures Tracks(Aggregate(fs), CourseKeysOf(fs))
    decreases |fs|
  {
    if fs != [] {
      var p := fs[..|fs| - 1];
      var f := fs[|fs| - 1];
      AggregateTracks(p);
      AggregateStep(fs);
      var a := Aggregate(p);
      var ks := CourseKeysOf(p);
      var a1 := a.(totalCourses := a.totalCourses + 1);
      TracksSame(a, a1, ks);
      if HasInstructors(f.course) {
        var key := CourseKey(f.course.courseCode, f.course.primaryAssociation);
        assert CourseKeysOf(fs) == ks + [key];
        AddListedTracks(a1, f.termKey, key, f.course.instructors.value, ks);
        assert Aggregate(fs) == AddListed(a1, f.termKey, key, f.course.instructors.value);
      } else {
        assert CourseKeysOf(fs) == ks;
        TracksSame(a1, Aggregate(fs), ks);
      }
    }
  }

  /** What an index states about a map: keys unique and registered, each set duplicate-free and exactly its key's values. */
  lemma IndexesMeaning(ks: seq<string>, ps: seq<(string, int)>, m: SetMap)
    requires Indexes(ks, ps, m)
    ensures NoDup(m.keys)
    ensures forall k :: k in m.sets <==> k in ks
    ensures forall k :: k in m.sets ==> NoDup(m.sets[k])
    ensures forall k, x :: k in m.sets ==> (x in m.sets[k] <==> exists j :: 0 <= j < |ps| && ps[j] == (k, x))
  {
  }

  lemma {:induction false} EntriesMembers(termKey: string, key: string, insts: seq<Option<ApiInstructor>>)
    ensures forall m :: m in Entries(termKey, key, insts) <==>
      exists j :: 0 <= j < |insts| && ValidInstructor(insts[j])
        && m == CxIDMapping(key, termKey, insts[j].value.name, insts[j].value.cxid)
    decreases |insts|
  {
    if insts != [] {
      var p := insts[..|insts| - 1];
      EntriesMembers(termKey, key, p);
      assert forall j :: 0 <= j < |p| ==> insts[j] == p[j];
    }
  }

  /** The record a valid entry of the i-th fetched course yields. */
  predicate RecordOf(fs: seq<Fetched>, i: int, j: int, m: CxIDMapping) {
    && 0 <= i < |fs| && HasInstructors(fs[i].course)
    && 0 <= j < |fs[i].course.instructors.value|
    && ValidInstructor(fs[i].course.instructors.value[j])
    && var e := fs[i].course.instructors.value[j].value;
      m == CxIDMapping(CourseKey(fs[i].course.courseCode, fs[i].course.primaryAssociation), fs[i].termKey, e.name, e.cxid)
  }

  /**
   * The mapping records are exactly the valid instructor entries of the
   * courses that have an instructor list, each filed under its course's
   * hyphenated key and its term; no record has an empty name or a zero CxID.
   */
  lemma {:induction false} MappingsMembers(fs: seq<Fetched>)
    ensures forall m :: m in Mappings(fs) <==> exists i, j :: RecordOf(fs, i, j, m)
    ensures forall m :: m in Mappings(fs) ==> m.instructorName != "" && m.cxid != 0
    decreases |fs|
  {
    if fs != [] {
      var p := fs[..|fs| - 1];
      var f := fs[|fs| - 1];
      MappingsMembers(p);
      assert forall i, j, m :: RecordOf(p, i, j, m) <==> RecordOf(fs, i, j, m) && i < |p|;
      var n := |p|;
      assert Mappings(fs) == Mappings(p) + CourseEntries(f);
      if HasInstructors(f.course) {
        EntriesMembers(f.termKey, CourseKey(f.course.courseCode, f.course.primaryAssociation), f.course.instructors.value);
        forall m ensures m in CourseEntries(f) <==> exists j :: RecordOf(fs, n, j, m) {
          if m in CourseEntries(f) {
            var j :| 0 <= j < |f.course.instructors.value| && ValidInstructor(f.course.instructors.value[j])
              && m == CxIDMapping(CourseKey(f.course.courseCode, f.course.primaryAssociation), f.termKey,
                   f.course.instructors.value[j].value.name, f.course.instructors.value[j].value.cxid);
            assert RecordOf(fs, n, j, m);
          }
        }
      } else {
        assert forall j, m :: !RecordOf(fs, n, j, m);
      }
      forall m ensures m in Mappings(fs) <==> exists i, j :: RecordOf(fs, i, j, m) {
        if exists i, j :: RecordOf(fs, i, j, m) {
          var i, j :| RecordOf(fs, i, j, m);
          if i < n {
            assert RecordOf(p, i, j, m);
          }
        }
      }
    }
  }

  /** Fetched course f registers course key k: it has an instructor list and files under k. */
  predicate Registers(f: Fetched, k: string) {
    HasInstructors(f.course) && k == CourseKey(f.course.courseCode, f.course.primaryAssociation)
  }

  /** A course key is registered exactly when some fetched course with that key had an instructor list. */
  lemma {:induction false} CourseKeysMembers(fs: seq<Fetched>)
    ensures forall k :: k in CourseKeysOf(fs) <==> exists i :: 0 <= i < |fs| && Registers(fs[i], k)
    decreases |fs|
  {
    if fs != [] {
      CourseKeysMembers(fs[..|fs| - 1]);
      forall k ensures k in CourseKeysOf(fs) <==> exists i :: 0 <= i < |fs| && Registers(fs[i], k) {
        CourseKeysStep(fs, k);
      }
    }
  }

  lemma CourseKeysStep(fs: seq<Fetched>, k: string)
    requires fs != []
    requires var p := fs[..|fs| - 1];
      k in CourseKeysOf(p) <==> exists i :: 0 <= i < |p| && Registers(p[i], k)
    ensures k in CourseKeysOf(fs) <==> exists i :: 0 <= i < |fs| && Registers(fs[i], k)
  {
    var p, f := fs[..|fs| - 1], fs[|fs| - 1];
    if k in CourseKeysOf(p) {
      var i :| 0 <= i < |p| && Registers(p[i], k);
      assert fs[i] == p[i];
    } else if Registers(f, k) {
      assert fs[|p|] == f;
    } else {
      assert k !in CourseKeysOf(fs);
      forall i | 0 <= i < |fs| ensures !Registers(fs[i], k) {
        if i < |p| {
          assert fs[i] == p[i] && !Registers(p[i], k);
        } else {
          assert fs[i] == f;
        }
      }
    }
  }

  /** A map indexing the records by instructor name, read back in terms of the records. */
  lemma NameIndexMeaning(ms: seq<CxIDMapping>, im: SetMap)
    requires Indexes(NamesOf(ms), NamePairs(ms), im)
    ensures NoDup(im.keys)
    ensures forall n :: n in im.sets <==> exists m :: m in ms && m.instructorName == n
    ensures forall n :: n in im.sets ==> NoDup(im.sets[n])
    ensures forall n, x :: n in im.sets ==>
      (x in im.sets[n] <==> exists m :: m in ms && m.instructorName == n && m.cxid == x)
  {
    IndexesMeaning(NamesOf(ms), NamePairs(ms), im);
    NamesOfMembers(ms);
    forall n, x ensures (exists j :: 0 <= j < |ms| && NamePairs(ms)[j] == (n, x))
      <==> (exists m :: m in ms && m.instructorName == n && m.cxid == x)
    {
      NamePairsMember(ms, n, x);
    }
  }

  lemma NamesOfMembers(ms: seq<CxIDMapping>)
    ensures forall n :: n in NamesOf(ms) <==> exists m :: m in ms && m.instructorName == n
  {
    forall n ensures n in NamesOf(ms) <==> exists m :: m in ms && m.instructorName == n {
      if n in NamesOf(ms) {
        var j :| 0 <= j < |ms| && NamesOf(ms)[j] == n;
        assert ms[j] in ms;
      }
    }
  }

  lemma NamePairsMember(ms: seq<CxIDMapping>, n: string, x: int)
    ensures (exists j :: 0 <= j < |ms| && NamePairs(ms)[j] == (n, x))
      <==> (exists m :: m in ms && m.instructorName == n && m.cxid == x)
  {
    if exists m :: m in ms && m.instructorName == n && m.cxid == x {
      var m :| m in ms && m.instructorName == n && m.cxid == x;
      var j :| 0 <= j < |ms| && ms[j] == m;
      assert NamePairs(ms)[j] == (n, x);
    }
    if exists j :: 0 <= j < |ms| && NamePairs(ms)[j] == (n, x) {
      var j :| 0 <= j < |ms| && NamePairs(ms)[j] == (n, x);
      assert ms[j] in ms;
    }
  }

  /** A map indexing the records by course key, read back in terms of the records. */
  lemma CourseIndexMeaning(ks: seq<string>, ms: seq<CxIDMapping>, cm: SetMap)
    requires Indexes(ks, CoursePairs(ms), cm)
    ensures NoDup(cm.keys)
    ensures forall k :: k in cm.sets <==> k in ks
    ensures forall k :: k in cm.sets ==> NoDup(cm.sets[k])
    ensures forall k, x :: k in cm.sets ==>
      (x in cm.sets[k] <==> exists m :: m in ms && m.courseCode == k && m.cxid == x)
  {
    IndexesMeaning(ks, CoursePairs(ms), cm);
    forall k, x ensures (exists j :: 0 <= j < |ms| && CoursePairs(ms)[j] == (k, x))
      <==> exists m :: m in ms && m.courseCode == k && m.cxid == x
    {
      if exists m :: m in ms && m.courseCode == k && m.cxid == x {
        var m :| m in ms && m.courseCode == k && m.cxid == x;
        var j :| 0 <= j < |ms| && ms[j] == m;
        assert CoursePairs(ms)[j] == (k, x);
      }
      if exists j :: 0 <= j < |ms| && CoursePairs(ms)[j] == (k, x) {
        var j :| 0 <= j < |ms| && CoursePairs(ms)[j] == (k, x);
        assert ms[j] in ms;
      }
    }
  }

  /**
   * The instructor map after the fetch loop: its names are unique and are
   * exactly the names of the mapping records, and each name's set holds,
   * once each, exactly the CxIDs recorded under that name.
   */
  lemma InstructorMapMeaning(fs: seq<Fetched>)
    ensures var im := Aggregate(fs).instructorCxIDs;
      && NoDup(im.keys)
      && (forall n :: n in im.sets <==> exists m :: m in Mappings(fs) && m.instructorName == n)
      && (forall n :: n in im.sets ==> NoDup(im.sets[n]))
      && (forall n, x :: n in im.sets ==>
            (x in im.sets[n] <==> exists m :: m in Mappings(fs) && m.instructorName == n && m.cxid == x))
  {
    var a := Aggregate(fs);
    AggregateCounts(fs);
    AggregateTracks(fs);
    NameIndexMeaning(a.mappings, a.instructorCxIDs);
  }

  /**
   * The course map after the fetch loop: its keys are unique and are
   * exactly the hyphenated keys of the courses that had an instructor list
   * (even if none of its entries was valid), and each key's set holds, once
   * each, exactly the CxIDs recorded under that key.
   */
  lemma CourseMapMeaning(fs: seq<Fetched>)
    ensures var cm := Aggregate(fs).courseCxIDs;
      && NoDup(cm.keys)
      && (forall k :: k in cm.sets <==> exists i :: 0 <= i < |fs| && Registers(fs[i], k))
      && (forall k :: k in cm.sets ==> NoDup(cm.sets[k]))
      && (forall k, x :: k in cm.sets ==>
            (x in cm.sets[k] <==> exists m :: m in Mappings(fs) && m.courseCode == k && m.cxid == x))
  {
    var a := Aggregate(fs);
    AggregateCounts(fs);
    AggregateTracks(fs);
    CourseKeysMembers(fs);
    CourseIndexMeaning(CourseKeysOf(fs), a.mappings, a.courseCxIDs);
  }

  // =====================================================================
  // The fetch loop
  // =====================================================================

  /** The inner loop over one course's instructors; the course key is already registered. */
  method AddInstructors(termKey: string, key: string, insts: seq<Option<ApiInstructor>>, a0: Aggregation)
    returns (a: Aggregation)
    requires key in a0.courseCxIDs.sets
    ensures a == AddEntries(a0, termKey, key, insts)
  {
    a := a0;
    var j := 0;
    while j < |insts|
      invariant 0 <= j <= |insts|
      invariant a == AddEntries(a0, termKey, key, insts[..j])
    {
      assert insts[..j + 1][..j] == insts[..j];
      var e := insts[j];
      if ValidInstructor(e) {
        a := AddEntry(a, CxIDMapping(key, termKey, e.value.name, e.value.cxid));
      }
      j := j + 1;
    }
    assert insts[..|insts|] == insts;
  }

  /**
   * buildCxIDMappings' fetch loop over the fetched courses: courses with a
   * missing or empty instructor list are counted and skipped, the others
   * register their key CourseKey(code, association) and add their valid
   * instructor entries.
   */
  method BuildCxIDMappings(fs: seq<Fetched>) returns (a: Aggregation)
    ensures a == Aggregate(fs)
  {
    a := Empty;
    var i := 0;
    while i < |fs|
      invariant 0 <= i <= |fs|
      invariant a == Aggregate(fs[..i])
    {
      assert fs[..i + 1][..i] == fs[..i];
      a := AddFetched(a, fs[i]);
      i := i + 1;
    }
    assert fs[..|fs|] == fs;
  }

  /** One fetched course: counted, then skipped or registered with its instructors. */
  method AddFetched(a0: Aggregation, f: Fetched) returns (a: Aggregation)
    ensures a == AddCourse(a0, f)
  {
    a := a0.(totalCourses := a0.totalCourses + 1);
    if !HasInstructors(f.course) {
      a := a.(coursesWithoutInstructors := a.coursesWithoutInstructors + 1);
    } else {
      var key := CourseKey(f.course.courseCode, f.course.primaryAssociation);
      a := a.(courseCxIDs := Register(a.courseCxIDs, key));
      a := AddInstructors(f.termKey, key, f.course.instructors.value, a);
    }
  }

  // =====================================================================
  // Serialisation
  // =====================================================================

  datatype KeyCxIDs = KeyCxIDs(key: string, cxids: seq<int>)

  /** The default comparison of Array.prototype.sort: by the numbers' decimal strings. */
  predicate CxIDLe(a: int, b: int) {
    StringLe(IntToString(a), IntToString(b))
  }

  lemma CxIDLeTotalPreorder()
    ensures TotalPreorder(CxIDLe)
  {
    forall a: int, b: int ensures CxIDLe(a, b) || CxIDLe(b, a) {
      StringLeTotal(IntToString(a), IntToString(b));
    }
    forall a: int, b: int, c: int | CxIDLe(a, b) && CxIDLe(b, c) ensures CxIDLe(a, c) {
      StringLeTransitive(IntToString(a), IntToString(b), IntToString(c));
    }
  }

  /** `Array.from(cxids).sort()`: the same members in string order. */
  function SortedCxIDs(s: seq<int>): (r: seq<int>)
    ensures multiset(r) == multiset(s)
    decreases |s|
  {
    if s == [] then []
    else
      assert s == [s[0]] + s[1..];
      InsertBy(s[0], SortedCxIDs(s[1..]), CxIDLe)
  }

  lemma {:induction false} SortedCxIDsOrdered(s: seq<int>)
    ensures SortedBy(SortedCxIDs(s), CxIDLe)
    decreases |s|
  {
    if s != [] {
      SortedCxIDsOrdered(s[1..]);
      CxIDLeTotalPreorder();
      InsertBySorted(s[0], SortedCxIDs(s[1..]), CxIDLe);
    }
  }

  /** The entries pushed for the keys ks, in order: the key and its set's CxIDs as sorted. */
  function ListEntries(ks: seq<string>, sets: map<string, seq<int>>): (r: seq<KeyCxIDs>)
    requires forall i :: 0 <= i < |ks| ==> ks[i] in sets
    ensures |r| == |ks|
  {
    if ks == [] then []
    else ListEntries(ks[..|ks| - 1], sets) + [KeyCxIDs(ks[|ks| - 1], SortedCxIDs(sets[ks[|ks| - 1]]))]
  }

  /**
   * `map.forEach((cxids, key) => list.push({key, cxids: Array.from(cxids).sort()}))`:
   * one entry per key in insertion order.
   */
  method ToSortedList(m: SetMap) returns (list: seq<KeyCxIDs>)
    requires forall i :: 0 <= i < |m.keys| ==> m.keys[i] in m.sets
    ensures list == ListEntries(m.keys, m.sets)
  {
    list := [];
    var i := 0;
    while i < |m.keys|
      invariant 0 <= i <= |m.keys|
      invariant list == ListEntries(m.keys[..i], m.sets)
    {
      var k := m.keys[i];
      ListEntriesStep(m.keys, i, m.sets);
      list := list + [KeyCxIDs(k, SortedCxIDs(m.sets[k]))];
      i := i + 1;
    }
    assert m.keys[..i] == m.keys;
  }

  lemma ListEntriesStep(ks: seq<string>, i: nat, sets: map<string, seq<int>>)
    requires i < |ks| && forall i :: 0 <= i < |ks| ==> ks[i] in sets
    ensures ListEntries(ks[..i + 1], sets) == ListEntries(ks[..i], sets) + [KeyCxIDs(ks[i], SortedCxIDs(sets[ks[i]]))]
  {
    assert ks[..i + 1][..i] == ks[..i];
  }

  /** The list written: key by key in insertion order, each key's CxIDs those of its set, in string order. */
  lemma SortedListMeaning(ks: seq<string>, sets: map<string, seq<int>>)
    requires forall i :: 0 <= i < |ks| ==> ks[i] in sets
    ensures forall i :: 0 <= i < |ks| ==>
      && ListEntries(ks, sets)[i].key == ks[i]
      && multiset(ListEntries(ks, sets)[i].cxids) == multiset(sets[ks[i]])
      && SortedBy(ListEntries(ks, sets)[i].cxids, CxIDLe)
  {
    ListEntriesSets(ks, sets);
    forall i | 0 <= i < |ks| ensures SortedBy(ListEntries(ks, sets)[i].cxids, CxIDLe) {
      SortedCxIDsOrdered(sets[ks[i]]);
    }
  }

  lemma ListEntriesSets(ks: seq<string>, sets: map<string, seq<int>>)
    requires forall i :: 0 <= i < |ks| ==> ks[i] in sets
    ensures forall i :: 0 <= i < |ks| ==> ListEntries(ks, sets)[i] == KeyCxIDs(ks[i], SortedCxIDs(sets[ks[i]]))
  {
    forall i | 0 <= i < |ks| ensures ListEntries(ks, sets)[i] == KeyCxIDs(ks[i], SortedCxIDs(sets[ks[i]])) {
      ListEntriesAt(ks, sets, i);
    }
  }

  lemma {:induction false} ListEntriesAt(ks: seq<string>, sets: map<string, seq<int>>, i: nat)
    requires forall i :: 0 <= i < |ks| ==> ks[i] in sets
    requires i < |ks|
    ensures ListEntries(ks, sets)[i] == KeyCxIDs(ks[i], SortedCxIDs(sets[ks[i]]))
    decreases |ks|
  {
    var p := ks[..|ks| - 1];
    if i < |p| {
      assert forall j :: 0 <= j < |p| ==> p[j] == ks[j];
      ListEntriesAt(p, sets, i);
    }
  }

  /**
   * The written lists: for either map after the fetch loop, every entry's
   * CxIDs are duplicate-free, in string order, and exactly the members of
   * its key's set.
   */
  lemma WrittenListDuplicateFree(m: SetMap, list: seq<KeyCxIDs>)
    requires forall k :: k in m.keys ==> k in m.sets
    requires forall k :: k in m.sets ==> NoDup(m.sets[k])
    requires |list| == |m.keys|
    requires forall i :: 0 <= i < |list| ==> list[i].key == m.keys[i] && multiset(list[i].cxids) == multiset(m.sets[m.keys[i]])
    ensures forall i :: 0 <= i < |list| ==> NoDup(list[i].cxids)
  {
    forall i | 0 <= i < |list| ensures NoDup(list[i].cxids) {
      NoDupOfSub(m.sets[m.keys[i]], list[i].cxids);
    }
  }
}
