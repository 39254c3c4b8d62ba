/**
 * The code_slug migration: every course is re-slugged as
 * DEPTNUM-SCHOOL from its code, and when several courses end up with the
 * same slug only the one with the most reviews (lowest id on a tie) is
 * kept.
 */
module RefactorCourseSlug {
  import opened Util

  /** The fields of a stored course the migration reads; a missing or non-string code is None. */
  datatype StoredCourse = StoredCourse(id: int, code: Option<string>, codeSlug: string, reviewCount: int)

  // =====================================================================
  // The normalised slug
  // =====================================================================

  /** `code.replace(/\s+/g, '').toUpperCase()`. */
  function CleanCode(code: string): (r: string)
    ensures forall i :: 0 <= i < |r| ==> !IsSpace(r[i]) && !IsLower(r[i])
  {
    var r := ToUpper(RemoveSpaces(code));
    assert forall i :: 0 <= i < |r| ==> r[i] == UpperChar(RemoveSpaces(code)[i]);
    r
  }

  /**
   * `/^(.+?)([A-Z]{2})$/` on the cleaned code, joined as base-school. The
   * school group is anchored at the end, so it is the last two characters
   * and the lazy base group is everything before them (at least one
   * character; the cleaned code holds no line terminator for `.` to reject).
   */
  function NormalizedSlug(code: string): Option<string> {
    var c := CleanCode(code);
    if |c| >= 3 && IsUpper(c[|c| - 2]) && IsUpper(c[|c| - 1]) then Some(c[..|c| - 2] + "-" + c[|c| - 2..])
    else None
  }

  /** A slug exists exactly when the cleaned code splits into a non-empty base and two capital letters. */
  lemma NormalizedSlugMeaning(code: string, base: string, school: string)
    requires |school| == 2
    ensures NormalizedSlug(code) == Some(base + "-" + school) <==>
      (CleanCode(code) == base + school && base != [] && IsUpper(school[0]) && IsUpper(school[1]))
  {
    var c := CleanCode(code);
    if CleanCode(code) == base + school && base != [] && IsUpper(school[0]) && IsUpper(school[1]) {
      assert c[..|c| - 2] == base && c[|c| - 2..] == school;
    }
    if NormalizedSlug(code) == Some(base + "-" + school) {
      var b', s' := c[..|c| - 2], c[|c| - 2..];
      JoinInjective(b', s', base, school, "-");
      assert c == b' + s';
    }
  }

  /** Two joins with the same separator whose right parts have equal length agree part by part. */
  lemma JoinInjective(x: string, y: string, base: string, school: string, sep: string)
    requires x + sep + y == base + sep + school && |y| == |school|
    ensures x == base && y == school
  {
    var j := x + sep + y;
    assert |x| == |base|;
    assert x == j[..|x|] && base == j[..|base|];
    assert y == j[|x| + |sep|..] && school == j[|base| + |sep|..];
  }

  /** A course is regrouped only if it has a non-empty code with a slug. */
  function SlugOf(c: StoredCourse): Option<string> {
    match c.code
      case None => None
      case Some(code) => if code == "" then None else NormalizedSlug(code)
  }

  // =====================================================================
  // First pass: grouping by slug
  // =====================================================================

  /** slugGroups with its keys in insertion order, and the first pass's skip count. */
  datatype Grouping = Grouping(keys: seq<string>, groups: map<string, seq<StoredCourse>>, skipped: nat)

  /** One iteration of the first loop: skip a course without a slug, else add it to its slug's group. */
  function AddCourse(g: Grouping, c: StoredCourse, slugOf: StoredCourse -> Option<string>): Grouping {
    match slugOf(c)
      case None => g.(skipped := g.skipped + 1)
      case Some(slug) =>
        if slug in g.groups then g.(groups := g.groups[slug := g.groups[slug] + [c]])
        else g.(keys := g.keys + [slug], groups := g.groups[slug := [c]])
  }

  /** The first pass over the courses, for any slug function; the migration uses SlugOf. */
  function GroupAll(courses: seq<StoredCourse>, slugOf: StoredCourse -> Option<string>): Grouping {
    if courses == [] then Grouping([], map[], 0)
    else AddCourse(GroupAll(courses[..|courses| - 1], slugOf), courses[|courses| - 1], slugOf)
  }

  /** The courses, in order, whose slug is k. */
  function Members(courses: seq<StoredCourse>, k: string, slugOf: StoredCourse -> Option<string>): seq<StoredCourse> {
    if courses == [] then []
    else
      var p := Members(courses[..|courses| - 1], k, slugOf);
      if slugOf(courses[|courses| - 1]) == Some(k) then p + [courses[|courses| - 1]] else p
  }

  /** Members keeps the courses with slug k and only those. */
  lemma {:induction false} MembersMeaning(courses: seq<StoredCourse>, k: string, slugOf: StoredCourse -> Option<string>)
    ensures forall i :: 0 <= i < |Members(courses, k, slugOf)| ==>
      Members(courses, k, slugOf)[i] in courses && slugOf(Members(courses, k, slugOf)[i]) == Some(k)
    ensures forall c :: c in courses && slugOf(c) == Some(k) ==> c in Members(courses, k, slugOf)
    decreases |courses|
  {
    if courses != [] {
      var p, c := courses[..|courses| - 1], courses[|courses| - 1];
      MembersMeaning(p, k, slugOf);
      assert forall x :: x in courses <==> x in p || x == c;
      var m, r := Members(p, k, slugOf), Members(courses, k, slugOf);
      forall i | 0 <= i < |r| ensures r[i] in courses && slugOf(r[i]) == Some(k) {
        if i < |m| {
          assert r[i] == m[i];
        }
      }
    }
  }

  /** The slugs of the courses that have one, in order. */
  function Slugs(courses: seq<StoredCourse>, slugOf: StoredCourse -> Option<string>): seq<string> {
    if courses == [] then []
    else
      var p := Slugs(courses[..|courses| - 1], slugOf);
      match slugOf(courses[|courses| - 1])
        case None => p
        case Some(s) => p + [s]
  }

  function Unslugged(courses: seq<StoredCourse>, slugOf: StoredCourse -> Option<string>): nat {
    if courses == [] then 0
    else Unslugged(courses[..|courses| - 1], slugOf) + (if slugOf(courses[|courses| - 1]).None? then 1 else 0)
  }

  /**
   * What a grouping says about the courses: one key per distinct slug in
   * order of first appearance, each holding exactly the courses with that
   * slug in their original order, and the slug-less courses counted as
   * skipped.
   */
  ghost predicate Describes(g: Grouping, courses: seq<StoredCourse>, slugOf: StoredCourse -> Option<string>) {
    && g.keys == Distinct(Slugs(courses, slugOf))
    && (forall k :: k in g.groups <==> k in g.keys)
    && (forall k :: k in g.groups ==> g.groups[k] == Members(courses, k, slugOf))
    && (forall k :: k !in g.groups ==> Members(courses, k, slugOf) == [])
    && g.skipped == Unslugged(courses, slugOf)
  }

  /** The first pass computes the grouping that describes the courses. */
  lemma {:induction false} GroupAllMeaning(courses: seq<StoredCourse>, slugOf: StoredCourse -> Option<string>)
    ensures Describes(GroupAll(courses, slugOf), courses, slugOf)
    decreases |courses|
  {
    if courses != [] {
      var p, c := courses[..|courses| - 1], courses[|courses| - 1];
      GroupAllMeaning(p, slugOf);
      assert courses == p + [c];
      AddCourseMeaning(GroupAll(p, slugOf), p, c, slugOf);
    }
  }

  /** Adding a course to a grouping that describes some courses describes them with the course appended. */
  lemma AddCourseMeaning(g: Grouping, cs: seq<StoredCourse>, c: StoredCourse, slugOf: StoredCourse -> Option<string>)
    requires Describes(g, cs, slugOf)
    ensures Describes(AddCourse(g, c, slugOf), cs + [c], slugOf)
  {
    match slugOf(c)
      case None => SkipMeaning(g, cs, c, slugOf);
      case Some(s) =>
        if s in g.groups {
          AddToGroupMeaning(g, cs, c, s, slugOf);
        } else {
          AddGroupMeaning(g, cs, c, s, slugOf);
        }
  }

  lemma SkipMeaning(g: Grouping, cs: seq<StoredCourse>, c: StoredCourse, slugOf: StoredCourse -> Option<string>)
    requires Describes(g, cs, slugOf) && slugOf(c).None?
    ensures Describes(g.(skipped := g.skipped + 1), cs + [c], slugOf)
  {
    SlugsSnoc(cs, c, slugOf);
    UnsluggedSnoc(cs, c, slugOf);
    forall k ensures Members(cs + [c], k, slugOf) == Members(cs, k, slugOf) {
      MembersSnoc(cs, c, k, slugOf);
    }
  }

  lemma AddToGroupMeaning(g: Grouping, cs: seq<StoredCourse>, c: StoredCourse, s: string, slugOf: StoredCourse -> Option<string>)
    requires Describes(g, cs, slugOf) && slugOf(c) == Some(s) && s in g.groups
    ensures Describes(g.(groups := g.groups[s := g.groups[s] + [c]]), cs + [c], slugOf)
  {
    var g', cs' := g.(groups := g.groups[s := g.groups[s] + [c]]), cs + [c];
    assert g'.keys == Distinct(Slugs(cs', slugOf)) by {
      SlugsSnoc(cs, c, slugOf);
      assert s in Slugs(cs, slugOf);
      DistinctSnoc(Slugs(cs, slugOf), s);
    }
    UnsluggedSnoc(cs, c, slugOf);
    forall k | k in g'.groups ensures g'.groups[k] == Members(cs', k, slugOf) {
      MembersSnoc(cs, c, k, slugOf);
    }
    forall k | k !in g'.groups ensures Members(cs', k, slugOf) == [] {
      MembersSnoc(cs, c, k, slugOf);
    }
  }

  lemma AddGroupMeaning(g: Grouping, cs: seq<StoredCourse>, c: StoredCourse, s: string, slugOf: StoredCourse -> Option<string>)
    requires Describes(g, cs, slugOf) && slugOf(c) == Some(s) && s !in g.groups
    ensures Describes(g.(keys := g.keys + [s], groups := g.groups[s := [c]]), cs + [c], slugOf)
  {
    AddGroupKeys(g, cs, c, s, slugOf);
    UnsluggedSnoc(cs, c, slugOf);
    AddGroupMembers(g, cs, c, s, slugOf);
  }

  lemma AddGroupKeys(g: Grouping, cs: seq<StoredCourse>, c: StoredCourse, s: string, slugOf: StoredCourse -> Option<string>)
    requires Describes(g, cs, slugOf) && slugOf(c) == Some(s) && s !in g.groups
    ensures g.keys + [s] == Distinct(Slugs(cs + [c], slugOf))
  {
    SlugsSnoc(cs, c, slugOf);
    assert s !in Slugs(cs, slugOf);
    DistinctSnoc(Slugs(cs, slugOf), s);
  }

  lemma AddGroupMembers(g: Grouping, cs: seq<StoredCourse>, c: StoredCourse, s: string, slugOf: StoredCourse -> Option<string>)
    requires Describes(g, cs, slugOf) && slugOf(c) == Some(s) && s !in g.groups
    ensures forall k :: k in g.groups[s := [c]] ==> g.groups[s := [c]][k] == Members(cs + [c], k, slugOf)
    ensures forall k :: k !in g.groups[s := [c]] ==> Members(cs + [c], k, slugOf) == []
  {
    var m := g.groups[s := [c]];
    forall k | k in m ensures m[k] == Members(cs + [c], k, slugOf) {
      MembersSnoc(cs, c, k, slugOf);
    }
    forall k | k !in m ensures Members(cs + [c], k, slugOf) == [] {
      MembersSnoc(cs, c, k, slugOf);
    }
  }

  lemma SlugsSnoc(cs: seq<StoredCourse>, c: StoredCourse, slugOf: StoredCourse -> Option<string>)
    ensures Slugs(cs + [c], slugOf) == Slugs(cs, slugOf) + (if slugOf(c).Some? then [slugOf(c).value] else [])
  {
    assert (cs + [c])[..|cs|] == cs;
  }

  lemma MembersSnoc(cs: seq<StoredCourse>, c: StoredCourse, k: string, slugOf: StoredCourse -> Option<string>)
    ensures Members(cs + [c], k, slugOf) == Members(cs, k, slugOf) + (if slugOf(c) == Some(k) then [c] else [])
  {
    assert (cs + [c])[..|cs|] == cs;
  }

  lemma UnsluggedSnoc(cs: seq<StoredCourse>, c: StoredCourse, slugOf: StoredCourse -> Option<string>)
    ensures Unslugged(cs + [c], slugOf) == Unslugged(cs, slugOf) + (if slugOf(c).None? then 1 else 0)
  {
    assert (cs + [c])[..|cs|] == cs;
  }

  /** slugGroups is filled by the first loop. */
  method GroupBySlug(courses: seq<StoredCourse>) returns (g: Grouping)
    ensures g == GroupAll(courses, SlugOf)
  {
    g := Grouping([], map[], 0);
    var i := 0;
    while i < |courses|
      invariant 0 <= i <= |courses|
      invariant g == GroupAll(courses[..i], SlugOf)
    {
      assert courses[..i + 1][..i] == courses[..i];
      assert courses[..i + 1][i] == courses[i];
      var course := courses[i];
      match SlugOf(course) {
        case None =>
          g := g.(skipped := g.skipped + 1);
        case Some(slug) =>
          if slug in g.groups {
            g := g.(groups := g.groups[slug := g.groups[slug] + [course]]);
          } else {
            g := g.(keys := g.keys + [slug], groups := g.groups[slug := [course]]);
          }
      }
      i := i + 1;
    }
    assert courses[..|courses|] == courses;
  }

  // =====================================================================
  // Second pass: keep one course per slug
  // =====================================================================

  /** The sort order of a duplicate group: more reviews first, then lower id. */
  predicate KeepsBefore(a: StoredCourse, b: StoredCourse) {
    a.reviewCount > b.reviewCount || (a.reviewCount == b.reviewCount && a.id <= b.id)
  }

  lemma KeepsBeforeTotalPreorder()
    ensures TotalPreorder(KeepsBefore)
  {
  }

  /** The group sorted by the comparator. */
  function SortGroup(group: seq<StoredCourse>): (r: seq<StoredCourse>)
    ensures |r| == |group| && multiset(r) == multiset(group) && SortedBy(r, KeepsBefore)
  {
    KeepsBeforeTotalPreorder();
    SortBy(group, KeepsBefore)
  }

  /** The first of the sorted group has the most reviews, and the lowest id among those with as many. */
  lemma KeeperIsBest(group: seq<StoredCourse>)
    requires group != []
    ensures var keep := SortGroup(group)[0];
      && keep in group
      && forall c :: c in group ==> c.reviewCount < keep.reviewCount || (c.reviewCount == keep.reviewCount && keep.id <= c.id)
  {
    var s := SortGroup(group);
    assert s[0] in multiset(group);
    forall c | c in group ensures KeepsBefore(s[0], c) {
      assert c in multiset(s);
      var j :| 0 <= j < |s| && s[j] == c;
      if j > 0 {
        assert KeepsBefore(s[0], s[j]);
      }
    }
  }

  /** A write the live run sends to the course collection. */
  datatype Write = SetSlug(id: int, slug: string) | DeleteCourse(id: int)

  datatype Stats = Stats(updated: nat, skipped: nat, deleted: nat)

  /** The course a group keeps: the only one, or the first after sorting. */
  function Keeper(group: seq<StoredCourse>): StoredCourse
    requires group != []
  {
    if |group| == 1 then group[0] else SortGroup(group)[0]
  }

  /** The courses a group deletes: none, or all but the first after sorting. */
  function Duplicates(group: seq<StoredCourse>): seq<StoredCourse>
    requires group != []
  {
    if |group| == 1 then [] else SortGroup(group)[1..]
  }

  function Ids(cs: seq<StoredCourse>): (r: seq<int>)
    ensures |r| == |cs|
  {
    seq(|cs|, i requires 0 <= i < |cs| => cs[i].id)
  }

  function Deletes(cs: seq<StoredCourse>): seq<Write> {
    if cs == [] then [] else Deletes(cs[..|cs| - 1]) + [DeleteCourse(cs[|cs| - 1].id)]
  }

  /** The ids named by the deletions among the writes. */
  function DeletedIds(w: seq<Write>): seq<int> {
    if w == [] then [] else (if w[0].DeleteCourse? then [w[0].id] else []) + DeletedIds(w[1..])
  }

  /** The writes for one group: re-slug the kept course if its slug differs, delete the rest. */
  function GroupWrites(slug: string, group: seq<StoredCourse>): seq<Write> {
    if group == [] then []
    else
      var keep := Keeper(group);
      (if keep.codeSlug != slug then [SetSlug(keep.id, slug)] else []) + Deletes(Duplicates(group))
  }

  /** The counters after one group. */
  function GroupStats(s: Stats, slug: string, group: seq<StoredCourse>): Stats {
    if group == [] then s
    else
      var s' := if Keeper(group).codeSlug != slug then s.(updated := s.updated + 1) else s.(skipped := s.skipped + 1);
      s'.(deleted := s'.deleted + |Duplicates(group)|)
  }

  lemma IdsAppend(a: seq<StoredCourse>, b: seq<StoredCourse>)
    ensures Ids(a + b) == Ids(a) + Ids(b)
  {
    assert forall i :: 0 <= i < |a + b| ==> Ids(a + b)[i] == (Ids(a) + Ids(b))[i];
  }

  lemma {:induction false} DeletedIdsAppend(a: seq<Write>, b: seq<Write>)
    ensures DeletedIds(a + b) == DeletedIds(a) + DeletedIds(b)
    decreases |a|
  {
    if a != [] {
      assert (a + b)[1..] == a[1..] + b;
      assert (a + b)[0] == a[0];
      DeletedIdsAppend(a[1..], b);
    } else {
      assert a + b == b;
    }
  }

  lemma {:induction false} DeletesMeaning(cs: seq<StoredCourse>)
    ensures DeletedIds(Deletes(cs)) == Ids(cs)
    ensures forall x :: x in Deletes(cs) ==> x.DeleteCourse?
    decreases |cs|
  {
    if cs != [] {
      var p, last := cs[..|cs| - 1], cs[|cs| - 1];
      DeletesMeaning(p);
      DeletedIdsAppend(Deletes(p), [DeleteCourse(last.id)]);
      assert cs == p + [last];
      IdsAppend(p, [last]);
    }
  }

  /** The kept course and the deleted ones are the group, rearranged. */
  lemma KeeperAndDuplicates(group: seq<StoredCourse>)
    requires group != []
    ensures multiset{Keeper(group)} + multiset(Duplicates(group)) == multiset(group)
  {
    var all := if |group| == 1 then group else SortGroup(group);
    assert all == [Keeper(group)] + Duplicates(group);
  }

  /** The kept course has the most reviews, and the lowest id among those with as many. */
  lemma KeeperMeaning(group: seq<StoredCourse>)
    requires group != []
    ensures var keep := Keeper(group);
      && keep in group
      && (forall c :: c in group ==> c.reviewCount < keep.reviewCount || (c.reviewCount == keep.reviewCount && keep.id <= c.id))
  {
    if |group| > 1 {
      KeeperIsBest(group);
    }
  }

  /** Only the kept course may be re-slugged, and it is exactly when its slug differs. */
  lemma GroupWritesSlug(slug: string, group: seq<StoredCourse>)
    requires group != []
    ensures var keep := Keeper(group);
      var w := GroupWrites(slug, group);
      && (SetSlug(keep.id, slug) in w <==> keep.codeSlug != slug)
      && (forall x :: x in w && x.SetSlug? ==> x == SetSlug(keep.id, slug))
  {
    DeletesMeaning(Duplicates(group));
  }

  /** Every course of the group but the kept one is deleted, each once. */
  lemma GroupWritesDeletes(slug: string, group: seq<StoredCourse>)
    requires group != []
    ensures DeletedIds(GroupWrites(slug, group)) == Ids(Duplicates(group))
    ensures multiset{Keeper(group)} + multiset(Duplicates(group)) == multiset(group)
  {
    var keep := Keeper(group);
    var head: seq<Write> := if keep.codeSlug != slug then [SetSlug(keep.id, slug)] else [];
    DeletesMeaning(Duplicates(group));
    DeletedIdsAppend(head, Deletes(Duplicates(group)));
    assert DeletedIds(head) == [];
    KeeperAndDuplicates(group);
  }

  /** Between them the counters grow by the size of the group. */
  lemma GroupStatsTotal(s: Stats, slug: string, group: seq<StoredCourse>)
    ensures var s' := GroupStats(s, slug, group);
      s'.updated + s'.skipped + s'.deleted == s.updated + s.skipped + s.deleted + |group|
  {
    if group != [] {
      KeeperAndDuplicates(group);
      assert |multiset(group)| == 1 + |multiset(Duplicates(group))|;
    }
  }

  // =====================================================================
  // The whole migration
  // =====================================================================

  /** The second pass over the slug keys in insertion order. */
  function PlanKeys(keys: seq<string>, groups: map<string, seq<StoredCourse>>, s0: Stats): (seq<Write>, Stats) {
    if keys == [] then ([], s0)
    else
      var (w, s) := PlanKeys(keys[..|keys| - 1], groups, s0);
      var k := keys[|keys| - 1];
      var group := if k in groups then groups[k] else [];
      (w + GroupWrites(k, group), GroupStats(s, k, group))
  }

  /** The writes and counters of a live run over the courses; the migration groups by SlugOf. */
  function Plan(courses: seq<StoredCourse>, slugOf: StoredCourse -> Option<string>): (seq<Write>, Stats) {
    var g := GroupAll(courses, slugOf);
    PlanKeys(g.keys, g.groups, Stats(0, g.skipped, 0))
  }

  /** The courses of a group with the given slug: the sum of the group sizes over the keys. */
  function SumSizes(keys: seq<string>, groups: map<string, seq<StoredCourse>>): nat {
    if keys == [] then 0
    else
      var k := keys[|keys| - 1];
      SumSizes(keys[..|keys| - 1], groups) + (if k in groups then |groups[k]| else 0)
  }

  lemma {:induction false} SumSizesOther(keys: seq<string>, groups: map<string, seq<StoredCourse>>, k: string, v: seq<StoredCourse>)
    requires k !in keys
    ensures SumSizes(keys, groups[k := v]) == SumSizes(keys, groups)
    decreases |keys|
  {
    if keys != [] {
      SumSizesOther(keys[..|keys| - 1], groups, k, v);
    }
  }

  lemma {:induction false} SumSizesBump(keys: seq<string>, groups: map<string, seq<StoredCourse>>, k: string, c: StoredCourse)
    requires k in keys && k in groups && NoDup(keys)
    ensures SumSizes(keys, groups[k := groups[k] + [c]]) == SumSizes(keys, groups) + 1
    decreases |keys|
  {
    var p := keys[..|keys| - 1];
    if keys[|keys| - 1] == k {
      assert k !in p;
      SumSizesOther(p, groups, k, groups[k] + [c]);
    } else {
      assert k in p;
      SumSizesBump(p, groups, k, c);
    }
  }

  /** The keys are distinct and are the groups' keys, no group is empty, and the groups hold n courses besides the skipped. */
  ghost predicate Counted(g: Grouping, n: nat) {
    && NoDup(g.keys)
    && (forall k :: k in g.groups <==> k in g.keys)
    && (forall k :: k in g.groups ==> g.groups[k] != [])
    && SumSizes(g.keys, g.groups) + g.skipped == n
  }

  /** The first pass puts every slugged course in exactly one group, and no group is empty. */
  lemma {:induction false} GroupAllCounts(courses: seq<StoredCourse>, slugOf: StoredCourse -> Option<string>)
    ensures Counted(GroupAll(courses, slugOf), |courses|)
    decreases |courses|
  {
    if courses != [] {
      var p := courses[..|courses| - 1];
      var c := courses[|courses| - 1];
      GroupAllCounts(p, slugOf);
      var g := GroupAll(p, slugOf);
      match slugOf(c)
        case None =>
        case Some(s) =>
          if s in g.groups {
            CountedJoin(g, |p|, s, c);
          } else {
            CountedNew(g, |p|, s, c);
          }
    }
  }

  lemma CountedJoin(g: Grouping, n: nat, s: string, c: StoredCourse)
    requires Counted(g, n) && s in g.groups
    ensures Counted(g.(groups := g.groups[s := g.groups[s] + [c]]), n + 1)
  {
    SumSizesBump(g.keys, g.groups, s, c);
  }

  lemma CountedNew(g: Grouping, n: nat, s: string, c: StoredCourse)
    requires Counted(g, n) && s !in g.groups
    ensures Counted(g.(keys := g.keys + [s], groups := g.groups[s := [c]]), n + 1)
  {
    var keys, groups := g.keys + [s], g.groups[s := [c]];
    FreshKeyKeepsNoDup(g.keys, s);
    assert keys[..|g.keys|] == g.keys;
    assert SumSizes(keys, groups) == SumSizes(g.keys, groups) + 1;
    SumSizesOther(g.keys, g.groups, s, [c]);
    assert forall k :: k in groups <==> k in keys;
  }

  lemma FreshKeyKeepsNoDup(keys: seq<string>, s: string)
    requires NoDup(keys) && s !in keys
    ensures NoDup(keys + [s])
  {
    forall i, j | 0 <= i < j < |keys| + 1 ensures (keys + [s])[i] != (keys + [s])[j] {
      if j == |keys| {
        assert keys[i] in keys;
      }
    }
  }

  lemma GroupStatsDeleted(s: Stats, slug: string, group: seq<StoredCourse>)
    requires group != []
    ensures GroupStats(s, slug, group).deleted == s.deleted + |group| - 1
  {
    KeeperAndDuplicates(group);
    assert |multiset(group)| == 1 + |multiset(Duplicates(group))|;
  }

  /** The second pass: the counters grow by all the grouped courses, the deletions by all but one per key. */
  lemma {:induction false} PlanKeysCounts(keys: seq<string>, groups: map<string, seq<StoredCourse>>, s0: Stats)
    requires forall k :: k in keys ==> k in groups && groups[k] != []
    ensures var s := PlanKeys(keys, groups, s0).1;
      && s.updated + s.skipped + s.deleted == s0.updated + s0.skipped + s0.deleted + SumSizes(keys, groups)
      && s.deleted + |keys| == s0.deleted + SumSizes(keys, groups)
    decreases |keys|
  {
    if keys != [] {
      var p, k := keys[..|keys| - 1], keys[|keys| - 1];
      assert forall x :: x in p ==> x in keys;
      PlanKeysCounts(p, groups, s0);
      var s := PlanKeys(p, groups, s0).1;
      GroupStatsTotal(s, k, groups[k]);
      GroupStatsDeleted(s, k, groups[k]);
    }
  }

  /** Every re-slugging gives a key's slug to that key's kept course. */
  lemma {:induction false} PlanKeysSlugs(keys: seq<string>, groups: map<string, seq<StoredCourse>>, s0: Stats)
    requires forall k :: k in keys ==> k in groups && groups[k] != []
    ensures forall x :: x in PlanKeys(keys, groups, s0).0 && x.SetSlug? ==>
      exists k :: k in keys && x == SetSlug(Keeper(groups[k]).id, k)
    decreases |keys|
  {
    if keys != [] {
      var p, k := keys[..|keys| - 1], keys[|keys| - 1];
      assert forall x :: x in p ==> x in keys;
      PlanKeysSlugs(p, groups, s0);
      GroupWritesSlug(k, groups[k]);
      var w := PlanKeys(p, groups, s0).0;
      forall x | x in w + GroupWrites(k, groups[k]) && x.SetSlug?
        ensures exists k' :: k' in keys && x == SetSlug(Keeper(groups[k']).id, k')
      {
        if x in w {
          var k' :| k' in p && x == SetSlug(Keeper(groups[k']).id, k');
          assert k' in keys;
        } else {
          assert x == SetSlug(Keeper(groups[k]).id, k);
        }
      }
    }
  }

  /**
   * The run's totals: every course is counted once as updated, skipped or
   * deleted, and the final course count is one per distinct slug plus the
   * courses without one.
   */
  lemma PlanCounts(courses: seq<StoredCourse>, slugOf: StoredCourse -> Option<string>)
    ensures var st := Plan(courses, slugOf).1;
      && st.updated + st.skipped + st.deleted == |courses|
      && |courses| - st.deleted == |Distinct(Slugs(courses, slugOf))| + Unslugged(courses, slugOf)
  {
    var g := GroupAll(courses, slugOf);
    GroupAllCounts(courses, slugOf);
    GroupAllMeaning(courses, slugOf);
    PlanKeysCounts(g.keys, g.groups, Stats(0, g.skipped, 0));
  }

  /** Every re-slugging in the run names a distinct slug of the courses and that slug's kept course. */
  lemma PlanSlugs(courses: seq<StoredCourse>, slugOf: StoredCourse -> Option<string>)
    ensures var g := GroupAll(courses, slugOf);
      forall x :: x in Plan(courses, slugOf).0 && x.SetSlug? ==>
        x.slug in Slugs(courses, slugOf) && x.slug in g.groups && g.groups[x.slug] != [] && x.id == Keeper(g.groups[x.slug]).id
  {
    var g := GroupAll(courses, slugOf);
    GroupAllCounts(courses, slugOf);
    GroupAllMeaning(courses, slugOf);
    PlanKeysSlugs(g.keys, g.groups, Stats(0, g.skipped, 0));
  }

  /** The loop deleting a group's duplicates. */
  method DeleteDuplicates(toDelete: seq<StoredCourse>, dryRun: bool, w0: seq<Write>, s0: Stats) returns (w: seq<Write>, s: Stats)
    ensures w == w0 + (if dryRun then [] else Deletes(toDelete))
    ensures s == s0.(deleted := s0.deleted + |toDelete|)
  {
    w, s := w0, s0;
    var j := 0;
    while j < |toDelete|
      invariant 0 <= j <= |toDelete|
      invariant w == w0 + (if dryRun then [] else Deletes(toDelete[..j]))
      invariant s == s0.(deleted := s0.deleted + j)
    {
      assert toDelete[..j + 1][..j] == toDelete[..j];
      if !dryRun {
        w := w + [DeleteCourse(toDelete[j].id)];
      }
      s := s.(deleted := s.deleted + 1);
      j := j + 1;
    }
    assert toDelete[..j] == toDelete;
  }

  /** One iteration of the second loop. */
  method ProcessGroup(slug: string, group: seq<StoredCourse>, dryRun: bool, s0: Stats) returns (w: seq<Write>, s: Stats)
    ensures w == (if dryRun then [] else GroupWrites(slug, group))
    ensures s == GroupStats(s0, slug, group)
  {
    w, s := [], s0;
    if |group| == 1 {
      var course := group[0];
      if course.codeSlug == slug {
        s := s.(skipped := s.skipped + 1);
        return;
      }
      if !dryRun {
        w := [SetSlug(course.id, slug)];
      }
      s := s.(updated := s.updated + 1);
    } else if |group| > 1 {
      w, s := ProcessDuplicates(slug, group, dryRun, s0);
    }
  }

  /** The branch of one iteration for a slug shared by several courses. */
  method ProcessDuplicates(slug: string, group: seq<StoredCourse>, dryRun: bool, s0: Stats) returns (w: seq<Write>, s: Stats)
    requires |group| > 1
    ensures w == (if dryRun then [] else GroupWrites(slug, group))
    ensures s == GroupStats(s0, slug, group)
  {
    w, s := [], s0;
    var sorted := SortGroup(group);
    var keep := sorted[0];
    var toDelete := sorted[1..];
    assert Keeper(group) == keep && Duplicates(group) == toDelete;
    if keep.codeSlug != slug {
      if !dryRun {
        w := [SetSlug(keep.id, slug)];
      }
      s := s.(updated := s.updated + 1);
    } else {
      s := s.(skipped := s.skipped + 1);
    }
    assert GroupStats(s0, slug, group) == s.(deleted := s.deleted + |toDelete|);
    w, s := DeleteDuplicates(toDelete, dryRun, w, s);
  }

  /**
   * fixCodeSlugFormat: group the courses by normalised slug, then keep one
   * course per slug; a dry run computes the same counters and writes nothing.
   */
  method FixCodeSlugFormat(courses: seq<StoredCourse>, dryRun: bool) returns (writes: seq<Write>, stats: Stats)
    ensures writes == (if dryRun then [] else Plan(courses, SlugOf).0)
    ensures stats == Plan(courses, SlugOf).1
  {
    var g := GroupBySlug(courses);
    GroupAllCounts(courses, SlugOf);
    writes, stats := KeepOnePerSlug(g, dryRun);
  }

  /** The second loop: one ProcessGroup per slug key in insertion order. */
  method KeepOnePerSlug(g: Grouping, dryRun: bool) returns (writes: seq<Write>, stats: Stats)
    requires forall k :: k in g.keys ==> k in g.groups
    ensures writes == (if dryRun then [] else PlanKeys(g.keys, g.groups, Stats(0, g.skipped, 0)).0)
    ensures stats == PlanKeys(g.keys, g.groups, Stats(0, g.skipped, 0)).1
  {
    writes, stats := [], Stats(0, g.skipped, 0);
    var i := 0;
    while i < |g.keys|
      invariant 0 <= i <= |g.keys|
      invariant writes == (if dryRun then [] else PlanKeys(g.keys[..i], g.groups, Stats(0, g.skipped, 0)).0)
      invariant stats == PlanKeys(g.keys[..i], g.groups, Stats(0, g.skipped, 0)).1
    {
      var slug := g.keys[i];
      var w;
      w, stats := ProcessGroup(slug, g.groups[slug], dryRun, stats);
      writes := writes + w;
      PlanKeysStep(g.keys, i, g.groups, Stats(0, g.skipped, 0));
      i := i + 1;
    }
    assert g.keys[..|g.keys|] == g.keys;
  }

  lemma PlanKeysStep(keys: seq<string>, i: nat, groups: map<string, seq<StoredCourse>>, s0: Stats)
    requires i < |keys| && keys[i] in groups
    ensures PlanKeys(keys[..i + 1], groups, s0).0 == PlanKeys(keys[..i], groups, s0).0 + GroupWrites(keys[i], groups[keys[i]])
    ensures PlanKeys(keys[..i + 1], groups, s0).1 == GroupStats(PlanKeys(keys[..i], groups, s0).1, keys[i], groups[keys[i]])
  {
    assert keys[..i + 1][..i] == keys[..i];
  }

  lemma RemoveSpacesThreeWords(code: string, gap: string, a: string, b: string, c: string)
    requires |gap| == 1 && IsSpace(gap[0])
    requires code == a + gap + b + gap + c
    requires forall i :: 0 <= i < |a| ==> !IsSpace(a[i])
    requires forall i :: 0 <= i < |b| ==> !IsSpace(b[i])
    requires forall i :: 0 <= i < |c| ==> !IsSpace(c[i])
    ensures RemoveSpaces(code) == a + b + c
  {
    assert code == a + (gap + (b + (gap + c)));
    RemoveSpacesWord(a, gap, b + (gap + c));
    RemoveSpacesWord(b, gap, c);
    RemoveSpacesNone(c);
  }

  /** A word without whitespace and one whitespace character before the rest: the word stays and the gap goes. */
  lemma RemoveSpacesWord(a: string, gap: string, rest: string)
    requires |gap| == 1 && IsSpace(gap[0])
    requires forall i :: 0 <= i < |a| ==> !IsSpace(a[i])
    ensures RemoveSpaces(a + (gap + rest)) == a + RemoveSpaces(rest)
  {
    RemoveSpacesAppend(a, gap + rest);
    RemoveSpacesNone(a);
    assert (gap + rest)[1..] == rest;
  }

  /**
   * The migration's own example: "MUS 130 SC", slugged "MUS-130-SC"
   * before, becomes "MUS130-SC". The code is given by its three words so
   * that the proof goes through the lemmas above.
   */
  lemma ExampleMus(m: string, n: string, t: string)
    requires m == "MUS" && n == "130" && t == "SC"
    ensures NormalizedSlug(m + " " + n + " " + t) == Some(m + n + "-" + t)
    ensures m + n + "-" + t == "MUS130-SC"
    ensures GroupWrites("MUS130-SC", [StoredCourse(7, Some(m + " " + n + " " + t), "MUS-130-SC", 0)]) == [SetSlug(7, "MUS130-SC")]
  {
    MusSlug(m, n, t);
  }

  lemma MusSlug(m: string, n: string, t: string)
    requires m == "MUS" && n == "130" && t == "SC"
    ensures NormalizedSlug(m + " " + n + " " + t) == Some(m + n + "-" + t)
  {
    var code, c := m + " " + n + " " + t, m + n + t;
    MusCleaned(m, n, t);
    assert CleanCode(code) == c;
    assert c[6] == t[0] && c[7] == t[1];
    assert c[..6] == m + n && c[6..] == t;
  }

  lemma MusCleaned(m: string, n: string, t: string)
    requires m == "MUS" && n == "130" && t == "SC"
    ensures ToUpper(RemoveSpaces(m + " " + n + " " + t)) == m + n + t
  {
    MusWords(m, n, t);
    var c := m + n + t;
    forall i | 0 <= i < |c| ensures ToUpper(c)[i] == c[i] {
      if i < 3 {
        assert c[i] == m[i];
      } else if i < 6 {
        assert c[i] == n[i - 3];
      } else {
        assert c[i] == t[i - 6];
      }
    }
  }

  lemma MusWords(m: string, n: string, t: string)
    requires m == "MUS" && n == "130" && t == "SC"
    ensures RemoveSpaces(m + " " + n + " " + t) == m + n + t
  {
    assert forall i :: 0 <= i < |m| ==> !IsSpace(m[i]);
    assert forall i :: 0 <= i < |n| ==> !IsSpace(n[i]);
    assert forall i :: 0 <= i < |t| ==> !IsSpace(t[i]);
    RemoveSpacesThreeWords(m + " " + n + " " + t, " ", m, n, t);
  }
}
