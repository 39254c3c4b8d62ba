/**
 * The review CxID migration: each course review is given an instructor
 * CxID, looked up by the course's code_slug and the instructor's name in
 * an index built from the CxID mappings, with the instructor's own first
 * stored cxid as a fallback.
 */
module UpdateReviews {
  import opened Util

  datatype Mapping = Mapping(courseCode: string, termKey: string, instructorName: string, cxid: int)

  /** The stored records the migration reads; a missing string is "" and missing cxids are []. */
  datatype Course = Course(id: int, code: string, codeSlug: string)
  datatype Instructor = Instructor(id: int, name: string, cxids: seq<int>)
  datatype Review = Review(id: int, courseId: int, instructorId: int)

  /** The name key of the index: `name.toLowerCase().trim()`. */
  function NameKey(name: string): string {
    Trim(ToLower(name))
  }

  // =====================================================================
  // The index: course code -> name key -> CxIDs in insertion order
  // =====================================================================

  type Index = map<string, map<string, seq<int>>>

  /** One `forEach` step: create the inner map and the set as needed, then add the cxid. */
  function AddMapping(idx: Index, m: Mapping, norm: string -> string): Index {
    var inner := if m.courseCode in idx then idx[m.courseCode] else map[];
    var k := norm(m.instructorName);
    var ids := if k in inner then inner[k] else [];
    idx[m.courseCode := inner[k := if m.cxid in ids then ids else ids + [m.cxid]]]
  }

  function BuildIndex(ms: seq<Mapping>, norm: string -> string): Index {
    if ms == [] then map[] else AddMapping(BuildIndex(ms[..|ms| - 1], norm), ms[|ms| - 1], norm)
  }

  /** ms[i] belongs to course code and name key k. */
  predicate For(ms: seq<Mapping>, i: int, code: string, k: string, norm: string -> string)
    requires 0 <= i < |ms|
  {
    ms[i].courseCode == code && norm(ms[i].instructorName) == k
  }

  /** ms[i] is the first mapping for course code and name key k. */
  predicate FirstFor(ms: seq<Mapping>, i: int, code: string, k: string, norm: string -> string) {
    && 0 <= i < |ms|
    && For(ms, i, code, k, norm)
    && forall j :: 0 <= j < i ==> !For(ms, j, code, k, norm)
  }

  predicate HasCode(ms: seq<Mapping>, code: string) {
    exists i :: 0 <= i < |ms| && ms[i].courseCode == code
  }

  predicate HasKey(ms: seq<Mapping>, code: string, k: string, norm: string -> string) {
    exists i :: 0 <= i < |ms| && For(ms, i, code, k, norm)
  }

  /** The CxIDs of the mappings for a course code and name key, in order, repeats dropped. */
  function CxidsFor(ms: seq<Mapping>, code: string, k: string, norm: string -> string): seq<int> {
    if ms == [] then []
    else
      var p := CxidsFor(ms[..|ms| - 1], code, k, norm);
      if For(ms, |ms| - 1, code, k, norm) && ms[|ms| - 1].cxid !in p then p + [ms[|ms| - 1].cxid] else p
  }

  /**
   * The index has an entry for exactly the course codes of the mappings,
   * an inner entry for exactly the name keys seen with that code, and the
   * inner list is the CxIDs of those mappings, without repeats, in the
   * order they were first added.
   */
  lemma BuildIndexMeaning(ms: seq<Mapping>, norm: string -> string)
    ensures forall code :: code in BuildIndex(ms, norm) <==> HasCode(ms, code)
    ensures forall code, k :: code in BuildIndex(ms, norm) ==>
      (k in BuildIndex(ms, norm)[code] <==> HasKey(ms, code, k, norm))
    ensures forall code, k :: code in BuildIndex(ms, norm) && k in BuildIndex(ms, norm)[code] ==>
      BuildIndex(ms, norm)[code][k] == CxidsFor(ms, code, k, norm)
  {
    BuildIndexOf(ms, norm);
  }

  /** idx is the index of the mappings ms, as BuildIndexMeaning states it. */
  ghost predicate IndexOf(idx: Index, ms: seq<Mapping>, norm: string -> string) {
    && (forall code :: code in idx <==> HasCode(ms, code))
    && (forall code, k :: code in idx ==> (k in idx[code] <==> HasKey(ms, code, k, norm)))
    && (forall code, k :: code in idx && k in idx[code] ==> idx[code][k] == CxidsFor(ms, code, k, norm))
  }

  lemma {:induction false} BuildIndexOf(ms: seq<Mapping>, norm: string -> string)
    ensures IndexOf(BuildIndex(ms, norm), ms, norm)
    decreases |ms|
  {
    if ms != [] {
      var p := ms[..|ms| - 1];
      BuildIndexOf(p, norm);
      assert ms == p + [ms[|ms| - 1]];
      AddMappingOf(BuildIndex(p, norm), p, ms[|ms| - 1], norm);
    }
  }

  lemma AddMappingOf(idx: Index, p: seq<Mapping>, m: Mapping, norm: string -> string)
    requires IndexOf(idx, p, norm)
    ensures IndexOf(AddMapping(idx, m, norm), p + [m], norm)
  {
    AddMappingCodes(idx, p, m, norm);
    AddMappingKeys(idx, p, m, norm);
    AddMappingCxids(idx, p, m, norm);
  }

  lemma AddMappingCodes(idx: Index, p: seq<Mapping>, m: Mapping, norm: string -> string)
    requires IndexOf(idx, p, norm)
    ensures forall code :: code in AddMapping(idx, m, norm) <==> HasCode(p + [m], code)
  {
    forall code ensures code in AddMapping(idx, m, norm) <==> HasCode(p + [m], code) {
      HasCodeSnoc(p, m, code);
    }
  }

  lemma AddMappingKeys(idx: Index, p: seq<Mapping>, m: Mapping, norm: string -> string)
    requires IndexOf(idx, p, norm)
    ensures forall code, k :: code in AddMapping(idx, m, norm) ==>
      (k in AddMapping(idx, m, norm)[code] <==> HasKey(p + [m], code, k, norm))
  {
    var idx' := AddMapping(idx, m, norm);
    forall code, k | code in idx' ensures k in idx'[code] <==> HasKey(p + [m], code, k, norm) {
      HasKeySnoc(p, m, code, k, norm);
      if code !in idx {
        HasKeyHasCode(p, code, k, norm);
      }
    }
  }

  lemma AddMappingCxids(idx: Index, p: seq<Mapping>, m: Mapping, norm: string -> string)
    requires IndexOf(idx, p, norm)
    ensures forall code, k :: code in AddMapping(idx, m, norm) && k in AddMapping(idx, m, norm)[code] ==>
      AddMapping(idx, m, norm)[code][k] == CxidsFor(p + [m], code, k, norm)
  {
    var idx' := AddMapping(idx, m, norm);
    forall code, k | code in idx' && k in idx'[code] ensures idx'[code][k] == CxidsFor(p + [m], code, k, norm) {
      CxidsForSnoc(p, m, code, k, norm);
      if code == m.courseCode && k == norm(m.instructorName) && (code !in idx || k !in idx[code]) {
        if code !in idx {
          HasKeyHasCode(p, code, k, norm);
        }
        CxidsForNone(p, code, k, norm);
      }
    }
  }

  lemma HasCodeSnoc(p: seq<Mapping>, m: Mapping, code: string)
    ensures HasCode(p + [m], code) <==> HasCode(p, code) || code == m.courseCode
  {
    var ms := p + [m];
    if HasCode(ms, code) && code != m.courseCode {
      var i :| 0 <= i < |ms| && ms[i].courseCode == code;
      assert p[i] == ms[i];
    }
    if HasCode(p, code) {
      var i :| 0 <= i < |p| && p[i].courseCode == code;
      assert ms[i] == p[i];
    }
    assert ms[|p|] == m;
  }

  lemma HasKeySnoc(p: seq<Mapping>, m: Mapping, code: string, k: string, norm: string -> string)
    ensures HasKey(p + [m], code, k, norm) <==> HasKey(p, code, k, norm) || (m.courseCode == code && norm(m.instructorName) == k)
  {
    var ms := p + [m];
    if HasKey(ms, code, k, norm) && !(m.courseCode == code && norm(m.instructorName) == k) {
      var i :| 0 <= i < |ms| && For(ms, i, code, k, norm);
      assert ms[i] == p[i];
      assert For(p, i, code, k, norm);
    }
    if HasKey(p, code, k, norm) {
      var i :| 0 <= i < |p| && For(p, i, code, k, norm);
      assert ms[i] == p[i];
      assert For(ms, i, code, k, norm);
    }
    assert ms[|p|] == m;
    if m.courseCode == code && norm(m.instructorName) == k {
      assert For(ms, |p|, code, k, norm);
    }
  }

  lemma HasKeyHasCode(p: seq<Mapping>, code: string, k: string, norm: string -> string)
    ensures HasKey(p, code, k, norm) ==> HasCode(p, code)
  {
    if HasKey(p, code, k, norm) {
      var i :| 0 <= i < |p| && For(p, i, code, k, norm);
      assert p[i].courseCode == code;
    }
  }

  lemma CxidsForSnoc(p: seq<Mapping>, m: Mapping, code: string, k: string, norm: string -> string)
    ensures CxidsFor(p + [m], code, k, norm) ==
      if m.courseCode == code && norm(m.instructorName) == k && m.cxid !in CxidsFor(p, code, k, norm)
      then CxidsFor(p, code, k, norm) + [m.cxid] else CxidsFor(p, code, k, norm)
  {
    assert (p + [m])[..|p|] == p;
    assert (p + [m])[|p|] == m;
  }

  lemma {:induction false} CxidsForNone(ms: seq<Mapping>, code: string, k: string, norm: string -> string)
    requires !HasKey(ms, code, k, norm)
    ensures CxidsFor(ms, code, k, norm) == []
    decreases |ms|
  {
    if ms != [] {
      var p := ms[..|ms| - 1];
      forall i | 0 <= i < |p| ensures !For(p, i, code, k, norm) {
        assert ms[i] == p[i];
        assert !For(ms, i, code, k, norm);
      }
      CxidsForNone(p, code, k, norm);
      assert !For(ms, |p|, code, k, norm);
    }
  }

  /** The first listed CxID is that of the first mapping for the code and key. */
  lemma {:induction false} CxidsForFirst(ms: seq<Mapping>, code: string, k: string, norm: string -> string, i: int)
    requires FirstFor(ms, i, code, k, norm)
    ensures CxidsFor(ms, code, k, norm) != [] && CxidsFor(ms, code, k, norm)[0] == ms[i].cxid
    decreases |ms|
  {
    var p := ms[..|ms| - 1];
    forall j | 0 <= j < |p| ensures ms[j] == p[j] {
    }
    if i == |p| {
      forall j | 0 <= j < |p| ensures !For(p, j, code, k, norm) {
        assert !For(ms, j, code, k, norm);
      }
      CxidsForNone(p, code, k, norm);
    } else {
      assert For(p, i, code, k, norm);
      forall j | 0 <= j < i ensures !For(p, j, code, k, norm) {
        assert !For(ms, j, code, k, norm);
      }
      CxidsForFirst(p, code, k, norm, i);
    }
  }

  /** The listed CxIDs are distinct and are exactly those of the matching mappings. */
  lemma {:induction false} CxidsForMembers(ms: seq<Mapping>, code: string, k: string, norm: string -> string)
    ensures NoDup(CxidsFor(ms, code, k, norm))
    ensures forall c :: c in CxidsFor(ms, code, k, norm) <==>
      exists i :: 0 <= i < |ms| && For(ms, i, code, k, norm) && ms[i].cxid == c
    decreases |ms|
  {
    if ms != [] {
      var p := ms[..|ms| - 1];
      CxidsForMembers(p, code, k, norm);
      forall i | 0 <= i < |p| ensures ms[i] == p[i] {
      }
      forall c ensures c in CxidsFor(ms, code, k, norm) <==> exists i :: 0 <= i < |ms| && For(ms, i, code, k, norm) && ms[i].cxid == c {
        if exists i :: 0 <= i < |ms| && For(ms, i, code, k, norm) && ms[i].cxid == c {
          var i :| 0 <= i < |ms| && For(ms, i, code, k, norm) && ms[i].cxid == c;
          if i < |p| {
            assert For(p, i, code, k, norm);
          }
        }
        if c in CxidsFor(p, code, k, norm) {
          var i :| 0 <= i < |p| && For(p, i, code, k, norm) && p[i].cxid == c;
          assert For(ms, i, code, k, norm);
        }
      }
      var q := CxidsFor(p, code, k, norm);
      if For(ms, |p|, code, k, norm) && ms[|p|].cxid !in q {
        forall a, b | 0 <= a < b < |q + [ms[|p|].cxid]| ensures (q + [ms[|p|].cxid])[a] != (q + [ms[|p|].cxid])[b] {
          if b == |q| {
            assert q[a] in q;
          }
        }
      }
    }
  }

  // =====================================================================
  // The id maps and the lookup of one review
  // =====================================================================

  /** `new Map(xs.map(x => [x.id, x]))`: a later record with the same id wins. */
  function ById<T>(xs: seq<T>, id: T -> int): map<int, T> {
    if xs == [] then map[] else ById(xs[..|xs| - 1], id)[id(xs[|xs| - 1]) := xs[|xs| - 1]]
  }

  /** xs[i] is the last record with id k. */
  predicate LastWithId<T>(xs: seq<T>, id: T -> int, k: int, i: int) {
    0 <= i < |xs| && id(xs[i]) == k && forall j :: i < j < |xs| ==> id(xs[j]) != k
  }

  /** The map holds exactly the ids of the records. */
  lemma {:induction false} ByIdDomain<T>(xs: seq<T>, id: T -> int, k: int)
    ensures k in ById(xs, id) <==> exists i :: 0 <= i < |xs| && id(xs[i]) == k
    decreases |xs|
  {
    if xs != [] {
      var p := xs[..|xs| - 1];
      ByIdDomain(p, id, k);
      if k in ById(p, id) {
        var i :| 0 <= i < |p| && id(p[i]) == k;
        assert xs[i] == p[i];
      }
      if k != id(xs[|p|]) && exists i :: 0 <= i < |xs| && id(xs[i]) == k {
        var i :| 0 <= i < |xs| && id(xs[i]) == k;
        assert id(p[i]) == k;
      }
    }
  }

  /** Each id is mapped to the last record with it. */
  lemma {:induction false} ByIdLast<T>(xs: seq<T>, id: T -> int, k: int) returns (i: int)
    requires k in ById(xs, id)
    ensures LastWithId(xs, id, k, i) && ById(xs, id)[k] == xs[i]
    decreases |xs|
  {
    var p := xs[..|xs| - 1];
    if k == id(xs[|p|]) {
      i := |p|;
    } else {
      i := ByIdLast(p, id, k);
      forall j | i < j < |xs| ensures id(xs[j]) != k {
        if j < |p| {
          assert xs[j] == p[j];
        }
      }
    }
  }

  function CourseId(c: Course): int { c.id }
  function InstructorId(i: Instructor): int { i.id }

  /** `foundCxID` is a number or null; the source tests it for truth, so 0 counts as not found. */
  predicate Truthy(o: Option<int>) {
    o.Some? && o.value != 0
  }

  /** The course-specific lookup: the first CxID of the set for the slug and name key, if any. */
  function Primary(idx: Index, course: Course, instructor: Instructor, norm: string -> string): Option<int> {
    if course.codeSlug != "" && instructor.name != "" && course.codeSlug in idx
       && norm(instructor.name) in idx[course.codeSlug] && |idx[course.codeSlug][norm(instructor.name)]| > 0
    then Some(idx[course.codeSlug][norm(instructor.name)][0])
    else None
  }

  /** The fallback replaces a primary result that is not truthy by the instructor's first cxid. */
  function Found(idx: Index, course: Course, instructor: Instructor, norm: string -> string): Option<int> {
    var primary := Primary(idx, course, instructor, norm);
    if !Truthy(primary) && |instructor.cxids| > 0 then Some(instructor.cxids[0]) else primary
  }

  datatype Outcome = Error | Mapped(cxid: int) | Unmapped

  /** The bucket of one review. */
  function Resolve(r: Review, courses: map<int, Course>, instructors: map<int, Instructor>, idx: Index, norm: string -> string): Outcome {
    if r.courseId !in courses || r.instructorId !in instructors then Error
    else
      var found := Found(idx, courses[r.courseId], instructors[r.instructorId], norm);
      if Truthy(found) then Mapped(found.value) else Unmapped
  }

  /**
   * The primary lookup answers exactly when the slug and the name are
   * present and some mapping has that course code and name key, and then
   * with the CxID of the first such mapping.
   */
  lemma PrimaryMeaning(ms: seq<Mapping>, course: Course, instructor: Instructor, norm: string -> string)
    ensures var p := Primary(BuildIndex(ms, norm), course, instructor, norm);
      && (p.Some? <==> course.codeSlug != "" && instructor.name != "" && HasKey(ms, course.codeSlug, norm(instructor.name), norm))
      && (p.Some? ==> exists i :: FirstFor(ms, i, course.codeSlug, norm(instructor.name), norm) && p.value == ms[i].cxid)
  {
    var code := course.codeSlug;
    var k := norm(instructor.name);
    BuildIndexMeaning(ms, norm);
    if HasKey(ms, code, k, norm) {
      var i := FirstIndexFor(ms, code, k, norm);
      CxidsForFirst(ms, code, k, norm, i);
      assert HasCode(ms, code) by {
        assert ms[i].courseCode == code;
      }
    }
  }

  /** An index of the first mapping for a code and key that has one. */
  lemma {:induction false} FirstIndexFor(ms: seq<Mapping>, code: string, k: string, norm: string -> string) returns (i: int)
    requires HasKey(ms, code, k, norm)
    ensures FirstFor(ms, i, code, k, norm)
    decreases |ms|
  {
    var p := ms[..|ms| - 1];
    forall j | 0 <= j < |p| ensures ms[j] == p[j] {
    }
    if HasKey(p, code, k, norm) {
      i := FirstIndexFor(p, code, k, norm);
      assert For(ms, i, code, k, norm);
      forall j | 0 <= j < i ensures !For(ms, j, code, k, norm) {
        assert !For(p, j, code, k, norm);
      }
    } else {
      i := |p|;
      var w :| 0 <= w < |ms| && For(ms, w, code, k, norm);
      if w < |p| {
        assert For(p, w, code, k, norm);
      }
      forall j | 0 <= j < i ensures !For(ms, j, code, k, norm) {
        if For(ms, j, code, k, norm) {
          assert For(p, j, code, k, norm);
        }
      }
    }
  }

  /**
   * A review is an error exactly when its course or instructor is unknown;
   * otherwise a truthy primary result is used as is and the fallback to
   * the instructor's first cxid is used only when the primary lookup gave
   * nothing truthy.
   */
  lemma ResolveMeaning(r: Review, courses: map<int, Course>, instructors: map<int, Instructor>, idx: Index, norm: string -> string)
    ensures Resolve(r, courses, instructors, idx, norm).Error? <==> r.courseId !in courses || r.instructorId !in instructors
    ensures r.courseId in courses && r.instructorId in instructors ==>
      var p := Primary(idx, courses[r.courseId], instructors[r.instructorId], norm);
      var cxids := instructors[r.instructorId].cxids;
      && (Truthy(p) ==> Resolve(r, courses, instructors, idx, norm) == Mapped(p.value))
      && (!Truthy(p) && |cxids| > 0 && cxids[0] != 0 ==> Resolve(r, courses, instructors, idx, norm) == Mapped(cxids[0]))
      && (!Truthy(p) && (|cxids| == 0 || cxids[0] == 0) <==> Resolve(r, courses, instructors, idx, norm).Unmapped?)
  {
    if r.courseId in courses && r.instructorId in instructors {
      var found := Found(idx, courses[r.courseId], instructors[r.instructorId], norm);
      assert Resolve(r, courses, instructors, idx, norm) == if Truthy(found) then Mapped(found.value) else Unmapped;
    }
  }

  // =====================================================================
  // The review loop
  // =====================================================================

  datatype Write = SetInstructorCxid(reviewId: int, cxid: int)

  datatype Stats = Stats(totalReviews: nat, mappedToCxID: nat, unmappedLegacy: nat, errors: nat)

  datatype State = State(writes: seq<Write>, stats: Stats)

  function Step(s: State, r: Review, courses: map<int, Course>, instructors: map<int, Instructor>, idx: Index, norm: string -> string): State {
    match Resolve(r, courses, instructors, idx, norm)
      case Error => s.(stats := s.stats.(errors := s.stats.errors + 1))
      case Mapped(c) => State(s.writes + [SetInstructorCxid(r.id, c)], s.stats.(mappedToCxID := s.stats.mappedToCxID + 1))
      case Unmapped => s.(stats := s.stats.(unmappedLegacy := s.stats.unmappedLegacy + 1))
  }

  function RunAll(rs: seq<Review>, s0: State, courses: map<int, Course>, instructors: map<int, Instructor>, idx: Index, norm: string -> string): State {
    if rs == [] then s0 else Step(RunAll(rs[..|rs| - 1], s0, courses, instructors, idx, norm), rs[|rs| - 1], courses, instructors, idx, norm)
  }

  /** migrateReviews on a live run. */
  function Migration(ms: seq<Mapping>, ins: seq<Instructor>, cs: seq<Course>, rs: seq<Review>, norm: string -> string): State {
    RunAll(rs, State([], Stats(|rs|, 0, 0, 0)), ById(cs, CourseId), ById(ins, InstructorId), BuildIndex(ms, norm), norm)
  }

  /**
   * Each review lands in exactly one bucket: the three counters add up to
   * the reviews processed, one write per mapped review and only those.
   */
  lemma {:induction false} RunAllBuckets(rs: seq<Review>, s0: State, courses: map<int, Course>, instructors: map<int, Instructor>, idx: Index, norm: string -> string)
    ensures var s := RunAll(rs, s0, courses, instructors, idx, norm);
      && s.stats.totalReviews == s0.stats.totalReviews
      && |s0.writes| <= |s.writes|
      && s.stats.mappedToCxID + s.stats.unmappedLegacy + s.stats.errors
         == s0.stats.mappedToCxID + s0.stats.unmappedLegacy + s0.stats.errors + |rs|
      && |s.writes| - |s0.writes| == s.stats.mappedToCxID - s0.stats.mappedToCxID
      && s.writes[..|s0.writes|] == s0.writes
      && (forall j :: 0 <= j < |rs| ==>
           (Resolve(rs[j], courses, instructors, idx, norm).Mapped? ==>
              SetInstructorCxid(rs[j].id, Resolve(rs[j], courses, instructors, idx, norm).cxid) in s.writes))
      && (forall w :: w in s.writes[|s0.writes|..] ==>
           exists j :: 0 <= j < |rs| && Resolve(rs[j], courses, instructors, idx, norm) == Mapped(w.cxid) && w.reviewId == rs[j].id)
    decreases |rs|
  {
    if rs != [] {
      var q := rs[..|rs| - 1];
      RunAllBuckets(q, s0, courses, instructors, idx, norm);
      var t := RunAll(q, s0, courses, instructors, idx, norm);
      var s := RunAll(rs, s0, courses, instructors, idx, norm);
      forall j | 0 <= j < |q| ensures rs[j] == q[j] {
      }
      var o := Resolve(rs[|q|], courses, instructors, idx, norm);
      if o.Mapped? {
        assert s.writes == t.writes + [SetInstructorCxid(rs[|q|].id, o.cxid)];
        assert s.writes[..|t.writes|] == t.writes;
        assert s.writes[|s0.writes|..] == t.writes[|s0.writes|..] + [SetInstructorCxid(rs[|q|].id, o.cxid)];
        forall w | w in s.writes[|s0.writes|..] ensures exists j :: 0 <= j < |rs| && Resolve(rs[j], courses, instructors, idx, norm) == Mapped(w.cxid) && w.reviewId == rs[j].id {
          if w in t.writes[|s0.writes|..] {
            var j :| 0 <= j < |q| && Resolve(q[j], courses, instructors, idx, norm) == Mapped(w.cxid) && w.reviewId == q[j].id;
            assert rs[j] == q[j];
          } else {
            assert w == SetInstructorCxid(rs[|q|].id, o.cxid);
          }
        }
      }
    }
  }

  /** The migration's stats: the buckets partition the reviews and there is one write per mapped review. */
  lemma MigrationBuckets(ms: seq<Mapping>, ins: seq<Instructor>, cs: seq<Course>, rs: seq<Review>, norm: string -> string)
    ensures var s := Migration(ms, ins, cs, rs, norm);
      && s.stats.totalReviews == |rs|
      && s.stats.mappedToCxID + s.stats.unmappedLegacy + s.stats.errors == |rs|
      && |s.writes| == s.stats.mappedToCxID
  {
    RunAllBuckets(rs, State([], Stats(|rs|, 0, 0, 0)), ById(cs, CourseId), ById(ins, InstructorId), BuildIndex(ms, norm), norm);
  }

  // =====================================================================
  // The loops
  // =====================================================================

  /** migrateReviews: a dry run issues no writes and computes the same stats. */
  method MigrateReviews(ms: seq<Mapping>, ins: seq<Instructor>, cs: seq<Course>, rs: seq<Review>, dryRun: bool)
    returns (writes: seq<Write>, stats: Stats)
    ensures writes == (if dryRun then [] else Migration(ms, ins, cs, rs, NameKey).writes)
    ensures stats == Migration(ms, ins, cs, rs, NameKey).stats
  {
    var idx := BuildIndexLoop(ms, NameKey);
    var instructorById := ById(ins, InstructorId);
    var courseById := ById(cs, CourseId);
    var s := State([], Stats(|rs|, 0, 0, 0));
    var j := 0;
    while j < |rs|
      invariant 0 <= j <= |rs|
      invariant s == RunAll(rs[..j], State([], Stats(|rs|, 0, 0, 0)), courseById, instructorById, idx, NameKey)
    {
      assert rs[..j + 1][..j] == rs[..j];
      s := ProcessReview(s, rs[j], courseById, instructorById, idx, NameKey, dryRun);
      j := j + 1;
    }
    assert rs[..|rs|] == rs;
    writes := if dryRun then [] else s.writes;
    stats := s.stats;
  }

  /** The `forEach` that builds the index. */
  method BuildIndexLoop(ms: seq<Mapping>, norm: string -> string) returns (idx: Index)
    ensures idx == BuildIndex(ms, norm)
  {
    idx := map[];
    var i := 0;
    while i < |ms|
      invariant 0 <= i <= |ms|
      invariant idx == BuildIndex(ms[..i], norm)
    {
      assert ms[..i + 1][..i] == ms[..i];
      idx := IndexMappingStep(idx, ms[i], norm);
      i := i + 1;
    }
    assert ms[..|ms|] == ms;
  }

  /** One callback of the `forEach`: create the course's map and the name's list on first use, then add the CxID once. */
  method IndexMappingStep(idx0: Index, m: Mapping, norm: string -> string) returns (idx: Index)
    ensures idx == AddMapping(idx0, m, norm)
  {
    idx := idx0;
    if m.courseCode !in idx {
      idx := idx[m.courseCode := map[]];
    }
    var instructorMap := idx[m.courseCode];
    ghost var inner := instructorMap;
    assert inner == if m.courseCode in idx0 then idx0[m.courseCode] else map[];
    var normalizedName := norm(m.instructorName);
    if normalizedName !in instructorMap {
      instructorMap := instructorMap[normalizedName := []];
    }
    var ids := instructorMap[normalizedName];
    assert ids == if normalizedName in inner then inner[normalizedName] else [];
    if m.cxid !in ids {
      ids := ids + [m.cxid];
    }
    assert instructorMap[normalizedName := ids] == inner[normalizedName := ids];
    assert idx[m.courseCode := inner[normalizedName := ids]] == idx0[m.courseCode := inner[normalizedName := ids]];
    idx := idx[m.courseCode := instructorMap[normalizedName := ids]];
  }

  /** One iteration of the review loop; the write is recorded whether or not the run is dry. */
  method ProcessReview(s0: State, r: Review, courses: map<int, Course>, instructors: map<int, Instructor>, idx: Index,
                       norm: string -> string, dryRun: bool) returns (s: State)
    ensures s == Step(s0, r, courses, instructors, idx, norm)
  {
    s := s0;
    if r.courseId !in courses || r.instructorId !in instructors {
      s := s.(stats := s.stats.(errors := s.stats.errors + 1));
      return;
    }
    var course := courses[r.courseId];
    var instructor := instructors[r.instructorId];
    var foundCxID: Option<int> := None;
    if course.codeSlug != "" && instructor.name != "" {
      if course.codeSlug in idx {
        var instructorMap := idx[course.codeSlug];
        var normalizedName := norm(instructor.name);
        if normalizedName in instructorMap && |instructorMap[normalizedName]| > 0 {
          foundCxID := Some(instructorMap[normalizedName][0]);
        }
      }
    }
    if !Truthy(foundCxID) && |instructor.cxids| > 0 {
      foundCxID := Some(instructor.cxids[0]);
    }
    if Truthy(foundCxID) {
      s := State(s.writes + [SetInstructorCxid(r.id, foundCxID.value)], s.stats.(mappedToCxID := s.stats.mappedToCxID + 1));
    } else {
      s := s.(stats := s.stats.(unmappedLegacy := s.stats.unmappedLegacy + 1));
    }
  }
}
