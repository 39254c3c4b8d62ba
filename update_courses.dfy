/**
 * The course catalogue refresh: course areas are split into departments
 * and requirements, API course codes are reduced to their section-free
 * form and slug, and each fetched (course, area) pair is merged into an
 * existing course record or creates a new one.
 */
module UpdateCourses {
  import opened Util

  // =====================================================================
  // Course areas
  // =====================================================================

  datatype CourseArea = CourseArea(code: string, description: string)

  /** The two global maps, area code to description. */
  datatype AreaMaps = AreaMaps(departments: map<string, string>, requirements: map<string, string>)

  /** `/^\d/.test(code)`. */
  predicate IsRequirementCode(code: string) {
    code != [] && IsDigit(code[0])
  }

  /** The maps after the forEach over the areas: empty codes ignored, a later area overwriting an earlier one. */
  function ClassifyAreas(areas: seq<CourseArea>): AreaMaps {
    if areas == [] then AreaMaps(map[], map[])
    else
      var m := ClassifyAreas(areas[..|areas| - 1]);
      var a := areas[|areas| - 1];
      if a.code == "" then m
      else if IsRequirementCode(a.code) then m.(requirements := m.requirements[a.code := a.description])
      else m.(departments := m.departments[a.code := a.description])
  }

  /** Some area has code c. */
  predicate HasCode(areas: seq<CourseArea>, c: string) {
    exists i :: 0 <= i < |areas| && areas[i].code == c
  }

  /** The area with code c that comes last, if any. */
  predicate LastWithCode(areas: seq<CourseArea>, c: string, i: int) {
    0 <= i < |areas| && areas[i].code == c && forall j :: i < j < |areas| ==> areas[j].code != c
  }

  /** The last area with a code before the final area is still the last one when the final area has another code. */
  lemma LastWithCodeBefore(areas: seq<CourseArea>, c: string, i: int)
    requires areas != [] && areas[|areas| - 1].code != c
    requires LastWithCode(areas[..|areas| - 1], c, i)
    ensures LastWithCode(areas, c, i)
  {
    var p := areas[..|areas| - 1];
    assert areas[i] == p[i];
    forall j | i < j < |areas| ensures areas[j].code != c {
      if j < |areas| - 1 {
        assert areas[j] == p[j];
      }
    }
  }

  /**
   * Every non-empty code lands in exactly one map: the requirement map
   * when it starts with a digit, the department map otherwise.
   */
  lemma {:induction false} ClassifyAreasKeys(areas: seq<CourseArea>)
    ensures var m := ClassifyAreas(areas);
      && (forall c :: c in m.requirements <==> IsRequirementCode(c) && HasCode(areas, c))
      && (forall c :: c in m.departments <==> c != "" && !IsRequirementCode(c) && HasCode(areas, c))
    decreases |areas|
  {
    if areas != [] {
      var p, a := areas[..|areas| - 1], areas[|areas| - 1];
      ClassifyAreasKeys(p);
      var m, mp := ClassifyAreas(areas), ClassifyAreas(p);
      assert m.requirements == if a.code != "" && IsRequirementCode(a.code) then mp.requirements[a.code := a.description] else mp.requirements;
      assert m.departments == if a.code != "" && !IsRequirementCode(a.code) then mp.departments[a.code := a.description] else mp.departments;
      forall c ensures HasCode(areas, c) <==> c == a.code || HasCode(p, c) {
        CodeInSnoc(areas, c);
      }
    }
  }

  /** A code occurs in a non-empty list iff it is the final area's or occurs before it. */
  lemma CodeInSnoc(areas: seq<CourseArea>, c: string)
    requires areas != []
    ensures HasCode(areas, c) <==> areas[|areas| - 1].code == c || HasCode(areas[..|areas| - 1], c)
  {
    var p := areas[..|areas| - 1];
    if HasCode(p, c) {
      var i :| 0 <= i < |p| && p[i].code == c;
      assert areas[i] == p[i];
    }
    if exists i :: 0 <= i < |areas| && areas[i].code == c {
      var i :| 0 <= i < |areas| && areas[i].code == c;
      if i < |areas| - 1 {
        assert areas[i] == p[i];
      }
    }
  }

  /** Each requirement code holds the description of the last area listed with that code. */
  lemma {:induction false} ClassifyRequirementValues(areas: seq<CourseArea>)
    ensures var m := ClassifyAreas(areas).requirements;
      forall c :: c in m ==> exists i :: LastWithCode(areas, c, i) && m[c] == areas[i].description
    decreases |areas|
  {
    if areas != [] {
      var p := areas[..|areas| - 1];
      var a := areas[|areas| - 1];
      ClassifyRequirementValues(p);
      var m, mp := ClassifyAreas(areas).requirements, ClassifyAreas(p).requirements;
      assert m == if a.code != "" && IsRequirementCode(a.code) then mp[a.code := a.description] else mp;
      forall c | c in m
        ensures exists i :: LastWithCode(areas, c, i) && m[c] == areas[i].description
      {
        if c == a.code && a.code != "" && IsRequirementCode(a.code) {
          assert LastWithCode(areas, c, |areas| - 1);
        } else {
          ClassifyAreasKeys(p);
          assert c != a.code && c in mp && m[c] == mp[c];
          var i :| LastWithCode(p, c, i) && mp[c] == p[i].description;
          LastWithCodeBefore(areas, c, i);
        }
      }
    }
  }

  /** Each department code holds the description of the last area listed with that code. */
  lemma {:induction false} ClassifyDepartmentValues(areas: seq<CourseArea>)
    ensures var m := ClassifyAreas(areas).departments;
      forall c :: c in m ==> exists i :: LastWithCode(areas, c, i) && m[c] == areas[i].description
    decreases |areas|
  {
    if areas != [] {
      var p := areas[..|areas| - 1];
      var a := areas[|areas| - 1];
      ClassifyDepartmentValues(p);
      var m, mp := ClassifyAreas(areas).departments, ClassifyAreas(p).departments;
      assert m == if a.code != "" && !IsRequirementCode(a.code) then mp[a.code := a.description] else mp;
      forall c | c in m
        ensures exists i :: LastWithCode(areas, c, i) && m[c] == areas[i].description
      {
        if c == a.code && a.code != "" && !IsRequirementCode(a.code) {
          assert LastWithCode(areas, c, |areas| - 1);
        } else {
          ClassifyAreasKeys(p);
          assert c != a.code && c in mp && m[c] == mp[c];
          var i :| LastWithCode(p, c, i) && mp[c] == p[i].description;
          LastWithCodeBefore(areas, c, i);
        }
      }
    }
  }

  /** fetchDepartmentMappings' forEach over the fetched areas. */
  method FetchDepartmentMappings(areas: seq<CourseArea>) returns (m: AreaMaps)
    ensures m == ClassifyAreas(areas)
  {
    m := AreaMaps(map[], map[]);
    var i := 0;
    while i < |areas|
      invariant 0 <= i <= |areas|
      invariant m == ClassifyAreas(areas[..i])
    {
      assert areas[..i + 1][..i] == areas[..i];
      var a := areas[i];
      if |a.code| > 0 {
        if IsRequirementCode(a.code) {
          m := m.(requirements := m.requirements[a.code := a.description]);
        } else {
          m := m.(departments := m.departments[a.code := a.description]);
        }
      }
      i := i + 1;
    }
    assert areas[..|areas|] == areas;
  }

  // =====================================================================
  // Course codes
  // =====================================================================

  /** The character classes of the regular expression: [A-Z], \d and \s. */
  datatype CharClass = Upper | Digit | Space

  predicate InClass(c: char, p: CharClass) {
    match p
      case Upper => IsUpper(c)
      case Digit => IsDigit(c)
      case Space => IsSpace(c)
  }

  /** Length of the run of characters of class p that starts at i. */
  function RunOf(s: string, i: nat, p: CharClass): (n: nat)
    requires i <= |s|
    ensures i + n <= |s|
    ensures AllIn(s, i, i + n, p)
    ensures i + n == |s| || !InClass(s[i + n], p)
    decreases |s| - i
  {
    if i < |s| && InClass(s[i], p) then 1 + RunOf(s, i + 1, p) else 0
  }

  /** A run is determined by where it stops. */
  lemma {:induction false} RunOfExact(s: string, i: nat, n: nat, p: CharClass)
    requires AllIn(s, i, i + n, p)
    requires i + n == |s| || !InClass(s[i + n], p)
    ensures RunOf(s, i, p) == n
    decreases n
  {
    if n > 0 {
      RunOfExact(s, i + 1, n - 1, p);
    }
  }

  /** Every character of s[from..to] is of class p. */
  predicate AllIn(s: string, from: nat, to: nat, p: CharClass)
    decreases (to as int) - (from as int)
  {
    from <= to <= |s| && (from == to || (InClass(s[from], p) && AllIn(s, from + 1, to, p)))
  }

  lemma {:induction false} AllInIff(s: string, from: nat, to: nat, p: CharClass)
    requires from <= to <= |s|
    ensures AllIn(s, from, to, p) <==> forall k :: from <= k < to ==> InClass(s[k], p)
    decreases (to as int) - (from as int)
  {
    if from < to {
      AllInIff(s, from + 1, to, p);
    }
  }

  /**
   * /^([A-Z]+\d+[A-Z]?)\s+([A-Z]+)/ matches s with its five parts taking
   * l, d, x, w and g characters.
   */
  predicate SectionParts(s: string, l: nat, d: nat, x: nat, w: nat, g: nat) {
    && l >= 1 && d >= 1 && x <= 1 && w >= 1 && g >= 1
    && AllIn(s, 0, l, Upper)
    && AllIn(s, l, l + d, Digit)
    && AllIn(s, l + d, l + d + x, Upper)
    && AllIn(s, l + d + x, l + d + x + w, Space)
    && AllIn(s, l + d + x + w, l + d + x + w + g, Upper)
  }

  /** `[A-Z]?` at e: one letter when there is one (giving it back cannot help, as \s must follow). */
  function OptionalUpper(s: string, e: nat): (x: nat)
    ensures x <= 1
    ensures x == 1 <==> e < |s| && IsUpper(s[e])
  {
    if e < |s| && IsUpper(s[e]) then 1 else 0
  }

  /** The two groups once the five runs are measured: none unless every required run is non-empty. */
  function SectionOf(s: string, l: nat, d: nat, x: nat, w: nat, g: nat): Option<(string, string)>
    requires l + d + x + w + g <= |s|
  {
    if l >= 1 && d >= 1 && w >= 1 && g >= 1 then Some((s[..l + d + x], s[l + d + x + w..l + d + x + w + g])) else None
  }

  /** The regular expression's two groups, found by scanning the runs left to right. */
  function SectionMatch(s: string): Option<(string, string)> {
    AfterLetters(s, RunOf(s, 0, Upper))
  }

  /** The scan once the leading letters have taken l characters. */
  function AfterLetters(s: string, l: nat): Option<(string, string)>
    requires l <= |s|
  {
    AfterDigits(s, l, RunOf(s, l, Digit))
  }

  /** The scan once the digits have taken d more characters. */
  function AfterDigits(s: string, l: nat, d: nat): Option<(string, string)>
    requires l + d <= |s|
  {
    var x := OptionalUpper(s, l + d);
    AfterGap(s, l, d, x, RunOf(s, l + d + x, Space))
  }

  /** The scan once the optional letter and the whitespace are measured. */
  function AfterGap(s: string, l: nat, d: nat, x: nat, w: nat): Option<(string, string)>
    requires l + d + x + w <= |s|
  {
    SectionOf(s, l, d, x, w, RunOf(s, l + d + x + w, Upper))
  }

  lemma AfterDigitsOfRuns(s: string, l: nat, d: nat, x: nat, w: nat)
    requires l + d + x + w <= |s|
    requires OptionalUpper(s, l + d) == x
    requires RunOf(s, l + d + x, Space) == w
    ensures AfterDigits(s, l, d) == AfterGap(s, l, d, x, w)
  {
  }

  /** The scan's result once each of its runs is known. */
  lemma SectionMatchOfRuns(s: string, l: nat, d: nat, x: nat, w: nat, g: nat)
    requires l + d + x + w + g <= |s|
    requires RunOf(s, 0, Upper) == l
    requires RunOf(s, l, Digit) == d
    requires OptionalUpper(s, l + d) == x
    requires RunOf(s, l + d + x, Space) == w
    requires RunOf(s, l + d + x + w, Upper) == g
    ensures SectionMatch(s) == SectionOf(s, l, d, x, w, g)
  {
    assert SectionMatch(s) == AfterLetters(s, l);
    assert AfterLetters(s, l) == AfterDigits(s, l, d);
    AfterDigitsOfRuns(s, l, d, x, w);
    assert AfterGap(s, l, d, x, w) == SectionOf(s, l, d, x, w, g);
  }

  /**
   * Whenever the regular expression can match, the scan finds the match
   * it reports: the one whose last group takes the whole letter run.
   */
  lemma SectionMatchExact(s: string, l: nat, d: nat, x: nat, w: nat, g: nat)
    requires SectionParts(s, l, d, x, w, g)
    requires var e := l + d + x + w + g; e == |s| || !IsUpper(s[e])
    ensures SectionMatch(s) == Some((s[..l + d + x], s[l + d + x + w..l + d + x + w + g]))
  {
    PartsAreRuns(s, l, d, x, w, g);
    SectionMatchOfRuns(s, l, d, x, w, g);
  }

  /** The parts of a match, the last group taking the whole letter run, are the runs the scan measures. */
  lemma PartsAreRuns(s: string, l: nat, d: nat, x: nat, w: nat, g: nat)
    requires SectionParts(s, l, d, x, w, g)
    requires var e := l + d + x + w + g; e == |s| || !IsUpper(s[e])
    ensures RunOf(s, 0, Upper) == l && RunOf(s, l, Digit) == d && OptionalUpper(s, l + d) == x
    ensures RunOf(s, l + d + x, Space) == w && RunOf(s, l + d + x + w, Upper) == g
  {
    LettersRun(s, l, d, x, w, g);
    DigitsRun(s, l, d, x, w, g);
    GapRun(s, l, d, x, w, g);
    RunStops(s, l + d + x + w, g, Upper);
  }

  lemma LettersRun(s: string, l: nat, d: nat, x: nat, w: nat, g: nat)
    requires SectionParts(s, l, d, x, w, g)
    ensures RunOf(s, 0, Upper) == l
  {
    assert InClass(s[l], Digit);
    ClassesDisjoint(s[l]);
    RunStops(s, 0, l, Upper);
  }

  lemma DigitsRun(s: string, l: nat, d: nat, x: nat, w: nat, g: nat)
    requires SectionParts(s, l, d, x, w, g)
    ensures RunOf(s, l, Digit) == d && OptionalUpper(s, l + d) == x
  {
    ClassesDisjoint(s[l + d]);
    if x == 1 {
      assert InClass(s[l + d], Upper);
    } else {
      assert InClass(s[l + d], Space);
    }
    RunStops(s, l, d, Digit);
  }

  lemma GapRun(s: string, l: nat, d: nat, x: nat, w: nat, g: nat)
    requires SectionParts(s, l, d, x, w, g)
    ensures RunOf(s, l + d + x, Space) == w
  {
    assert InClass(s[l + d + x + w], Upper);
    ClassesDisjoint(s[l + d + x + w]);
    RunStops(s, l + d + x, w, Space);
  }

  /** No character is in two of the classes. */
  lemma ClassesDisjoint(c: char)
    ensures !(InClass(c, Upper) && InClass(c, Digit))
    ensures !(InClass(c, Upper) && InClass(c, Space))
    ensures !(InClass(c, Digit) && InClass(c, Space))
  {
  }

  lemma RunStops(s: string, i: nat, n: nat, p: CharClass)
    requires AllIn(s, i, i + n, p)
    requires i + n == |s| || !InClass(s[i + n], p)
    ensures RunOf(s, i, p) == n
  {
    RunOfExact(s, i, n, p);
  }

  /** Runs that are all non-empty form a match of the regular expression. */
  lemma RunsAreMatch(s: string, l: nat, d: nat, x: nat, w: nat, g: nat)
    requires l >= 1 && d >= 1 && w >= 1 && g >= 1
    requires l == RunOf(s, 0, Upper) && d == RunOf(s, l, Digit) && x == OptionalUpper(s, l + d)
    requires w == RunOf(s, l + d + x, Space) && g == RunOf(s, l + d + x + w, Upper)
    ensures SectionParts(s, l, d, x, w, g)
  {
    assert AllIn(s, 0, l, Upper);
    assert AllIn(s, l, l + d, Digit);
    assert AllIn(s, l + d, l + d + x, Upper);
    assert AllIn(s, l + d + x, l + d + x + w, Space);
    assert AllIn(s, l + d + x + w, l + d + x + w + g, Upper);
  }

  /** The scan fails exactly when no match exists. */
  lemma SectionMatchNone(s: string)
    ensures SectionMatch(s).None? <==> forall l: nat, d: nat, x: nat, w: nat, g: nat :: !SectionParts(s, l, d, x, w, g)
  {
    forall l: nat, d: nat, x: nat, w: nat, g: nat | SectionParts(s, l, d, x, w, g)
      ensures SectionMatch(s).Some?
    {
      PartsGiveMatch(s, l, d, x, w, g);
    }
    if SectionMatch(s).Some? {
      MatchGivesParts(s);
    }
  }

  /** Any match of the regular expression makes the scan succeed. */
  lemma PartsGiveMatch(s: string, l: nat, d: nat, x: nat, w: nat, g: nat)
    requires SectionParts(s, l, d, x, w, g)
    ensures SectionMatch(s).Some?
  {
    SectionMatchExact(s, l, d, x, w, RunOf(s, l + d + x + w, Upper));
  }

  /** A successful scan read off a match of the regular expression. */
  lemma MatchGivesParts(s: string)
    requires SectionMatch(s).Some?
    ensures exists l: nat, d: nat, x: nat, w: nat, g: nat :: SectionParts(s, l, d, x, w, g)
  {
    var l := RunOf(s, 0, Upper);
    var d := RunOf(s, l, Digit);
    var x := OptionalUpper(s, l + d);
    var w := RunOf(s, l + d + x, Space);
    var g := RunOf(s, l + d + x + w, Upper);
    SectionMatchOfRuns(s, l, d, x, w, g);
    RunsAreMatch(s, l, d, x, w, g);
  }

  /**
   * stripSectionNumber: the two groups joined by one space; failing that,
   * the trimmed text before the last hyphen when that hyphen is not the
   * first character; failing that, the code unchanged.
   */
  function StripSectionNumber(courseCode: string): string {
    match SectionMatch(courseCode)
      case Some((a, b)) => a + " " + b
      case None =>
        match LastIndexOf(courseCode, '-')
          case Some(k) => if k > 0 then Trim(courseCode[..k]) else courseCode
          case None => courseCode
  }

  /** The three outcomes of stripSectionNumber. */
  lemma StripSectionNumberCases(courseCode: string)
    ensures SectionMatch(courseCode).Some? ==>
      StripSectionNumber(courseCode) == SectionMatch(courseCode).value.0 + " " + SectionMatch(courseCode).value.1
    ensures SectionMatch(courseCode).None? ==>
      if exists k :: 0 < k < |courseCode| && courseCode[k] == '-'
      then exists k :: 0 < k < |courseCode| && courseCode[k] == '-' && '-' !in courseCode[k + 1..]
             && StripSectionNumber(courseCode) == Trim(courseCode[..k])
      else StripSectionNumber(courseCode) == courseCode
  {
    if SectionMatch(courseCode).None? {
      match LastIndexOf(courseCode, '-')
        case Some(k) =>
          assert forall j :: k < j < |courseCode| ==> courseCode[j] != '-' by {
            forall j | k < j < |courseCode| ensures courseCode[j] != '-' {
              assert courseCode[j] == courseCode[k + 1..][j - k - 1];
            }
          }
        case None =>
    }
  }

  /** generateCodeSlug: every whitespace run becomes one hyphen. */
  function GenerateCodeSlug(code: string): string {
    ReplaceSpaceRuns(code, "-")
  }

  /** A slug holds no whitespace. */
  lemma SlugHasNoSpace(code: string)
    ensures forall i :: 0 <= i < |GenerateCodeSlug(code)| ==> !IsSpace(GenerateCodeSlug(code)[i])
  {
    ReplaceSpaceRunsNoSpace(code, "-");
  }

  lemma {:induction false} ReplaceSpaceRunsPrefix(a: string, b: string, repl: string)
    requires forall i :: 0 <= i < |a| ==> !IsSpace(a[i])
    ensures ReplaceSpaceRuns(a + b, repl) == a + ReplaceSpaceRuns(b, repl)
    decreases |a|
  {
    if a != [] {
      assert (a + b)[1..] == a[1..] + b;
      ReplaceSpaceRunsPrefix(a[1..], b, repl);
      assert a == [a[0]] + a[1..];
    } else {
      assert a + b == b;
    }
  }

  lemma StripOfMatch(courseCode: string, a: string, b: string)
    requires SectionMatch(courseCode) == Some((a, b))
    ensures StripSectionNumber(courseCode) == a + " " + b
  {
  }

  /** Joining two space-free parts by one space and slugging them puts a hyphen between them. */
  lemma SlugOfJoined(a: string, b: string)
    requires forall i :: 0 <= i < |a| ==> !IsSpace(a[i])
    requires b != [] && forall i :: 0 <= i < |b| ==> IsUpper(b[i])
    ensures GenerateCodeSlug(a + " " + b) == a + "-" + b
  {
    assert a + " " + b == a + (" " + b);
    ReplaceSpaceRunsPrefix(a, " " + b, "-");
    assert !IsSpace(b[0]);
    SlugOfSpaceWord(b);
    ReplaceSpaceRunsNone(b, "-");
  }

  lemma SlugOfSpaceWord(b: string)
    requires b != [] && !IsSpace(b[0])
    ensures ReplaceSpaceRuns(" " + b, "-") == "-" + ReplaceSpaceRuns(b, "-")
  {
    var t := " " + b;
    assert t[1..] == b;
    assert TrimStart(b) == b;
  }

  lemma ReplaceSpaceRunsNone(b: string, repl: string)
    requires forall i :: 0 <= i < |b| ==> !IsSpace(b[i])
    ensures ReplaceSpaceRuns(b, repl) == b
  {
    ReplaceSpaceRunsPrefix(b, [], repl);
    assert b + [] == b;
  }

  /** A code the regular expression matches is stored as "CSCI005 HM" and slugged as "CSCI005-HM". */
  lemma StrippedCode(courseCode: string, l: nat, d: nat, x: nat, w: nat, g: nat)
    requires SectionParts(courseCode, l, d, x, w, g)
    requires var e := l + d + x + w + g; e == |courseCode| || !IsUpper(courseCode[e])
    ensures var a, b := courseCode[..l + d + x], courseCode[l + d + x + w..l + d + x + w + g];
      && StripSectionNumber(courseCode) == a + " " + b
      && GenerateCodeSlug(StripSectionNumber(courseCode)) == a + "-" + b
  {
    SectionMatchExact(courseCode, l, d, x, w, g);
    var a, b := courseCode[..l + d + x], courseCode[l + d + x + w..l + d + x + w + g];
    StripOfMatch(courseCode, a, b);
    PartsChars(courseCode, l, d, x, w, g);
    assert forall i :: 0 <= i < |a| ==> a[i] == courseCode[i];
    assert forall i :: 0 <= i < |b| ==> b[i] == courseCode[l + d + x + w + i];
    SlugOfJoined(a, b);
  }

  /** The first group holds no whitespace and the second only capital letters. */
  lemma PartsChars(s: string, l: nat, d: nat, x: nat, w: nat, g: nat)
    requires SectionParts(s, l, d, x, w, g)
    ensures forall i :: 0 <= i < l + d + x ==> !IsSpace(s[i])
    ensures forall i :: l + d + x + w <= i < l + d + x + w + g ==> IsUpper(s[i])
  {
    AllInIff(s, 0, l, Upper);
    AllInIff(s, l, l + d, Digit);
    AllInIff(s, l + d, l + d + x, Upper);
    AllInIff(s, l + d + x + w, l + d + x + w + g, Upper);
    forall i | 0 <= i < l + d + x ensures !IsSpace(s[i]) {
      assert InClass(s[i], if i < l || l + d <= i then Upper else Digit);
      ClassesDisjoint(s[i]);
    }
  }

  /** A code laid out as letters, digits, whitespace, school letters and a tail starting with no letter matches. */
  lemma ShapeParts(code: string, letters: string, digits: string, gap: string, school: string, tail: string)
    requires letters != [] && forall i :: 0 <= i < |letters| ==> IsUpper(letters[i])
    requires digits != [] && forall i :: 0 <= i < |digits| ==> IsDigit(digits[i])
    requires gap != [] && forall i :: 0 <= i < |gap| ==> IsSpace(gap[i])
    requires school != [] && forall i :: 0 <= i < |school| ==> IsUpper(school[i])
    requires tail == [] || !IsUpper(tail[0])
    requires code == letters + digits + gap + school + tail
    ensures SectionParts(code, |letters|, |digits|, 0, |gap|, |school|)
    ensures var e := |letters| + |digits| + |gap| + |school|; e == |code| || !IsUpper(code[e])
    ensures code[..|letters| + |digits|] == letters + digits
    ensures code[|letters| + |digits| + |gap|..|letters| + |digits| + |gap| + |school|] == school
  {
    var l, d, w, g := |letters|, |digits|, |gap|, |school|;
    assert AllIn(code, 0, l, Upper) by {
      forall k | 0 <= k < l ensures code[k] == letters[k] { }
      AllInIff(code, 0, l, Upper);
    }
    assert AllIn(code, l, l + d, Digit) by {
      forall k | l <= k < l + d ensures code[k] == digits[k - l] { }
      AllInIff(code, l, l + d, Digit);
    }
    assert AllIn(code, l + d, l + d + w, Space) by {
      forall k | l + d <= k < l + d + w ensures code[k] == gap[k - l - d] { }
      AllInIff(code, l + d, l + d + w, Space);
    }
    assert AllIn(code, l + d + w, l + d + w + g, Upper) by {
      forall k | l + d + w <= k < l + d + w + g ensures code[k] == school[k - l - d - w] { }
      AllInIff(code, l + d + w, l + d + w + g, Upper);
    }
    assert l + d + w + g == |code| || code[l + d + w + g] == tail[0];
  }

  /** The documented example: "CSCI005  HM-01" is stored as "CSCI005 HM" with slug "CSCI005-HM". */
  lemma ExampleStrip(courseCode: string)
    requires courseCode == "CSCI005  HM-01"
    ensures StripSectionNumber(courseCode) == "CSCI005 HM"
    ensures GenerateCodeSlug(StripSectionNumber(courseCode)) == "CSCI005-HM"
  {
    var a, b := courseCode[..7], courseCode[9..11];
    assert a == "CSCI005" && b == "HM";
    assert StripSectionNumber(courseCode) == a + " " + b && GenerateCodeSlug(StripSectionNumber(courseCode)) == a + "-" + b by {
      var letters, digits, gap, school, tail := courseCode[..4], courseCode[4..7], courseCode[7..9], courseCode[9..11], courseCode[11..];
      assert letters == "CSCI" && digits == "005" && gap == "  " && school == "HM" && tail == "-01";
      assert courseCode == letters + digits + gap + school + tail;
      ShapeParts(courseCode, letters, digits, gap, school, tail);
      StrippedCode(courseCode, 4, 3, 0, 2, 2);
    }
    ExampleJoin(a, b);
  }

  lemma ExampleJoin(a: string, b: string)
    requires a == "CSCI005" && b == "HM"
    ensures a + " " + b == "CSCI005 HM" && a + "-" + b == "CSCI005-HM"
  {
  }

  /** extractDepartmentCode: the leading run of capital letters, possibly empty. */
  function ExtractDepartmentCode(code: string): (r: string)
    ensures |r| <= |code| && r == code[..|r|] && forall i :: 0 <= i < |r| ==> IsUpper(r[i])
    ensures |r| == |code| || !IsUpper(code[|r|])
  {
    AllInIff(code, 0, RunOf(code, 0, Upper), Upper);
    code[..RunOf(code, 0, Upper)]
  }

  lemma DepartmentOfJoined(a: string, b: string, l: nat)
    requires l < |a| && !IsUpper(a[l]) && forall i :: 0 <= i < l ==> IsUpper(a[i])
    ensures ExtractDepartmentCode(a + " " + b) == a[..l]
  {
    var s := a + " " + b;
    assert forall i :: 0 <= i <= l ==> s[i] == a[i];
    AllInIff(s, 0, l, Upper);
    RunOfExact(s, 0, l, Upper);
    assert s[..l] == a[..l];
  }

  /** A stripped code keeps the leading letters, so its department code is the subject prefix ("CSCI"). */
  lemma DepartmentOfStripped(courseCode: string, l: nat, d: nat, x: nat, w: nat, g: nat)
    requires SectionParts(courseCode, l, d, x, w, g)
    requires var e := l + d + x + w + g; e == |courseCode| || !IsUpper(courseCode[e])
    ensures ExtractDepartmentCode(StripSectionNumber(courseCode)) == courseCode[..l]
  {
    StrippedCode(courseCode, l, d, x, w, g);
    var a, b := courseCode[..l + d + x], courseCode[l + d + x + w..l + d + x + w + g];
    LettersThenDigit(courseCode, l, d, x, w, g);
    assert forall i :: 0 <= i <= l ==> a[i] == courseCode[i];
    DepartmentOfJoined(a, b, l);
    assert a[..l] == courseCode[..l];
  }

  /** The code opens with `l` capital letters followed by something that is not one. */
  lemma LettersThenDigit(s: string, l: nat, d: nat, x: nat, w: nat, g: nat)
    requires SectionParts(s, l, d, x, w, g)
    ensures l < |s| && !IsUpper(s[l])
    ensures forall i :: 0 <= i < l ==> IsUpper(s[i])
  {
    AllInIff(s, 0, l, Upper);
    AllInIff(s, l, l + d, Digit);
    ClassesDisjoint(s[l]);
  }

  /** `map.get(k) || k`: the mapped text unless it is missing or empty. */
  function NameOr(m: map<string, string>, k: string): (r: string)
    ensures (k in m && m[k] != "") ==> r == m[k]
    ensures !(k in m && m[k] != "") ==> r == k
  {
    if k in m && m[k] != "" then m[k] else k
  }

  /** getDepartmentNames: nothing for an empty code, else the mapped name or the code itself. */
  function GetDepartmentNames(departments: map<string, string>, deptCode: string): (r: seq<string>)
    ensures deptCode == "" ==> r == []
    ensures deptCode != "" ==> r == [NameOr(departments, deptCode)]
  {
    if deptCode == "" then []
    else if deptCode in departments && departments[deptCode] != "" then [departments[deptCode]]
    else [deptCode]
  }

  // =====================================================================
  // Course records
  // =====================================================================

  /** A stored course document. */
  datatype Course = Course(
    id: int,
    code: string,
    codeSlug: string,
    name: string,
    departmentNames: seq<string>,
    requirementCodes: seq<string>,
    requirementNames: seq<string>,
    termKeys: seq<string>,
    description: string,
    allInstructorIds: seq<int>)

  /** The API fields the refresh reads; a missing Name or Description is the empty string. */
  datatype ApiCourse = ApiCourse(courseCode: string, name: string, description: string)

  /** A fetched course together with the area whose listing returned it. */
  datatype SourcedCourse = SourcedCourse(course: ApiCourse, sourceArea: string)

  /** The term every refreshed course is tagged with. */
  const RefreshTerm: string := "2025;FA"

  /** Merging a fetched entry into an existing course: what gets pushed, and whether anything was. */
  function MergeCourse(c: Course, sourceArea: string, maps: AreaMaps): (Course, bool)
  {
    var (c1, u1) := if RefreshTerm in c.termKeys then (c, false) else (c.(termKeys := c.termKeys + [RefreshTerm]), true);
    if IsRequirementCode(sourceArea) then
      if sourceArea !in c1.requirementCodes then
        (c1.(requirementCodes := c1.requirementCodes + [sourceArea],
             requirementNames := c1.requirementNames + [NameOr(maps.requirements, sourceArea)]), true)
      else (c1, u1)
    else
      var deptName := NameOr(maps.departments, sourceArea);
      if deptName !in c1.departmentNames then (c1.(departmentNames := c1.departmentNames + [deptName]), true)
      else (c1, u1)
  }

  /**
   * A merge leaves the course holding the refresh term and the source
   * area (as a requirement code, or as a department name); every list only
   * grows, by at most one element; the other fields are kept; and the flag
   * says whether anything changed.
   */
  lemma MergeCourseMeaning(c: Course, sourceArea: string, maps: AreaMaps)
    ensures var (c', updated) := MergeCourse(c, sourceArea, maps);
      && RefreshTerm in c'.termKeys
      && (IsRequirementCode(sourceArea) ==> sourceArea in c'.requirementCodes)
      && (!IsRequirementCode(sourceArea) ==> NameOr(maps.departments, sourceArea) in c'.departmentNames)
      && (updated <==> c' != c)
      && c' == c.(termKeys := c'.termKeys, requirementCodes := c'.requirementCodes,
                  requirementNames := c'.requirementNames, departmentNames := c'.departmentNames)
      && c.termKeys <= c'.termKeys && |c'.termKeys| <= |c.termKeys| + 1
      && c.requirementCodes <= c'.requirementCodes && |c'.requirementCodes| <= |c.requirementCodes| + 1
      && c.departmentNames <= c'.departmentNames && |c'.departmentNames| <= |c.departmentNames| + 1
  {
  }

  /** Merging the same entry twice changes nothing the second time, so it is counted as skipped. */
  lemma MergeCourseIdempotent(c: Course, sourceArea: string, maps: AreaMaps)
    ensures var c' := MergeCourse(c, sourceArea, maps).0;
      MergeCourse(c', sourceArea, maps) == (c', false)
  {
  }

  /** A course created from a fetched entry. */
  function NewCourse(id: int, code: string, api: ApiCourse, sourceArea: string, maps: AreaMaps): Course
  {
    var isRequirement := IsRequirementCode(sourceArea);
    Course(
      id, code, GenerateCodeSlug(code),
      if api.name != "" then Trim(api.name) else "Untitled Course",
      if isRequirement then GetDepartmentNames(maps.departments, ExtractDepartmentCode(code))
      else [NameOr(maps.departments, sourceArea)],
      if isRequirement then [sourceArea] else [],
      if isRequirement then [NameOr(maps.requirements, sourceArea)] else [],
      [RefreshTerm], api.description, [])
  }

  /**
   * A new course carries the next id, the stripped code and its slug, the
   * refresh term, a trimmed name or "Untitled Course", and either the
   * requirement it came from plus the department named by its code prefix,
   * or the department it came from and no requirements.
   */
  lemma NewCourseMeaning(id: int, code: string, api: ApiCourse, sourceArea: string, maps: AreaMaps)
    ensures var r := NewCourse(id, code, api, sourceArea, maps);
      && r.id == id && r.code == code && r.codeSlug == GenerateCodeSlug(code)
      && r.termKeys == [RefreshTerm] && r.allInstructorIds == []
      && r.name == (if api.name == "" then "Untitled Course" else Trim(api.name))
      && r.description == api.description
      && (IsRequirementCode(sourceArea) ==>
            && r.requirementCodes == [sourceArea]
            && r.requirementNames == [NameOr(maps.requirements, sourceArea)]
            && r.departmentNames == GetDepartmentNames(maps.departments, ExtractDepartmentCode(code)))
      && (!IsRequirementCode(sourceArea) ==>
            && r.departmentNames == [NameOr(maps.departments, sourceArea)]
            && r.requirementCodes == [] && r.requirementNames == [])
  {
  }

  /**
   * A course created from a requirement listing under a code such as
   * "CSCI005  HM-01" is filed under the department its subject prefix
   * names ("CSCI"), or under the prefix itself when that is not mapped.
   */
  lemma RequirementCourseDepartment(id: int, api: ApiCourse, sourceArea: string, maps: AreaMaps,
                                    l: nat, d: nat, x: nat, w: nat, g: nat)
    requires IsRequirementCode(sourceArea)
    requires SectionParts(api.courseCode, l, d, x, w, g)
    requires var e := l + d + x + w + g; e == |api.courseCode| || !IsUpper(api.courseCode[e])
    ensures NewCourse(id, StripSectionNumber(api.courseCode), api, sourceArea, maps).departmentNames
      == [NameOr(maps.departments, api.courseCode[..l])]
  {
    DepartmentOfStripped(api.courseCode, l, d, x, w, g);
  }

  // =====================================================================
  // The refresh loop
  // =====================================================================

  function Codes(store: seq<Course>): (r: seq<string>)
    ensures |r| == |store| && forall i :: 0 <= i < |store| ==> r[i] == store[i].code
  {
    seq(|store|, i requires 0 <= i < |store| => store[i].code)
  }

  function Ids(store: seq<Course>): (r: seq<int>)
    ensures |r| == |store| && forall i :: 0 <= i < |store| ==> r[i] == store[i].id
  {
    seq(|store|, i requires 0 <= i < |store| => store[i].id)
  }

  /** `findOne({ code })`: the first stored course with that code. */
  function FindCourse(store: seq<Course>, code: string): (r: Option<nat>)
    ensures r.None? <==> code !in Codes(store)
    ensures r.Some? ==> r.value < |store| && store[r.value].code == code
    ensures r.Some? ==> forall j :: 0 <= j < r.value ==> store[j].code != code
  {
    if store == [] then None
    else match FindCourse(store[..|store| - 1], code)
      case Some(k) => Some(k)
      case None =>
        assert Codes(store) == Codes(store[..|store| - 1]) + [store[|store| - 1].code];
        if store[|store| - 1].code == code then Some(|store| - 1) else None
  }

  /**
   * The `required` validators of the course schema on the fields a new
   * course is given: its code, slug and name must not be empty.
   */
  predicate Storable(c: Course) {
    c.code != "" && c.codeSlug != "" && c.name != ""
  }

  /** Failed: the new course fails validation, `save()` throws and the catch counts an error. */
  datatype Outcome = Created | Updated | Skipped | Failed

  /**
   * One iteration of the loop: merge into the course with the stripped
   * code, or create it. The loop and its properties are stated for any
   * code reduction `strip`; the refresh itself uses StripSectionNumber.
   */
  function ApplyEntry(store: seq<Course>, e: SourcedCourse, maps: AreaMaps, strip: string -> string): (seq<Course>, Outcome) {
    var code := strip(e.course.courseCode);
    match FindCourse(store, code)
      case Some(k) =>
        var (c', updated) := MergeCourse(store[k], e.sourceArea, maps);
        if updated then (store[k := c'], Updated) else (store, Skipped)
      case None =>
        var c := NewCourse(NextId(Ids(store)), code, e.course, e.sourceArea, maps);
        if Storable(c) then (store + [c], Created) else (store, Failed)
  }

  /** The counters and the processed-code set after a run of the loop. */
  datatype Tally = Tally(created: nat, updated: nat, skipped: nat, errors: nat, processed: seq<string>)

  /** A failed entry counts an error and is not added to the processed set. */
  function Count(t: Tally, o: Outcome, code: string): Tally {
    if o == Failed then t.(errors := t.errors + 1)
    else
      var t' := if o == Created then t.(created := t.created + 1)
        else if o == Updated then t.(updated := t.updated + 1)
        else t.(skipped := t.skipped + 1);
      t'.(processed := if code in t.processed then t.processed else t.processed + [code])
  }

  /** The store and the tally together. */
  datatype Run = Run(store: seq<Course>, tally: Tally)

  /** One pass of the loop body. */
  function Step(r: Run, e: SourcedCourse, maps: AreaMaps, strip: string -> string): Run {
    var (s', o) := ApplyEntry(r.store, e, maps, strip);
    Run(s', Count(r.tally, o, strip(e.course.courseCode)))
  }

  /** The store and tally after processing the entries in order. */
  function ApplyAll(store: seq<Course>, entries: seq<SourcedCourse>, maps: AreaMaps, strip: string -> string): Run {
    if entries == [] then Run(store, Tally(0, 0, 0, 0, []))
    else Step(ApplyAll(store, entries[..|entries| - 1], maps, strip), entries[|entries| - 1], maps, strip)
  }

  lemma ApplyAllStep(store: seq<Course>, entries: seq<SourcedCourse>, i: nat, maps: AreaMaps, strip: string -> string)
    requires i < |entries|
    ensures ApplyAll(store, entries[..i + 1], maps, strip) == Step(ApplyAll(store, entries[..i], maps, strip), entries[i], maps, strip)
  {
    assert entries[..i + 1][..i] == entries[..i];
  }

  /** The body of updateCoursesFromAPI's loop for one entry: look the code up, then push or create. */
  method ProcessEntry(store0: seq<Course>, e: SourcedCourse, maps: AreaMaps)
    returns (store: seq<Course>, outcome: Outcome, courseCode: string)
    ensures (store, outcome) == ApplyEntry(store0, e, maps, StripSectionNumber)
    ensures courseCode == StripSectionNumber(e.course.courseCode)
  {
    var apiCourse, sourceArea := e.course, e.sourceArea;
    courseCode := StripSectionNumber(apiCourse.courseCode);
    var isRequirement := IsRequirementCode(sourceArea);
    store := store0;
    var existing := FindCourse(store, courseCode);
    if existing.Some? {
      var k := existing.value;
      var course := store[k];
      var changed := false;
      if RefreshTerm !in course.termKeys {
        course := course.(termKeys := course.termKeys + [RefreshTerm]);
        changed := true;
      }
      if isRequirement {
        if sourceArea !in course.requirementCodes {
          course := course.(requirementCodes := course.requirementCodes + [sourceArea]);
          course := course.(requirementNames := course.requirementNames + [NameOr(maps.requirements, sourceArea)]);
          changed := true;
        }
      } else {
        var deptName := NameOr(maps.departments, sourceArea);
        if deptName !in course.departmentNames {
          course := course.(departmentNames := course.departmentNames + [deptName]);
          changed := true;
        }
      }
      assert (course, changed) == MergeCourse(store[k], sourceArea, maps);
      if changed {
        store := store[k := course];
        outcome := Updated;
      } else {
        outcome := Skipped;
      }
    } else {
      var nextId := NextId(Ids(store));
      var newCourse := NewCourse(nextId, courseCode, apiCourse, sourceArea, maps);
      if Storable(newCourse) {
        store := store + [newCourse];
        outcome := Created;
      } else {
        outcome := Failed;
      }
    }
  }

  /** updateCoursesFromAPI's loop over the fetched entries, with its counters and processed set. */
  method UpdateCoursesFromAPI(store0: seq<Course>, entries: seq<SourcedCourse>, maps: AreaMaps)
    returns (store: seq<Course>, tally: Tally)
    ensures Run(store, tally) == ApplyAll(store0, entries, maps, StripSectionNumber)
  {
    store, tally := store0, Tally(0, 0, 0, 0, []);
    var i := 0;
    while i < |entries|
      invariant 0 <= i <= |entries|
      invariant Run(store, tally) == ApplyAll(store0, entries[..i], maps, StripSectionNumber)
    {
      ghost var before := Run(store, tally);
      var outcome, courseCode;
      store, outcome, courseCode := ProcessEntry(store, entries[i], maps);
      tally := Count(tally, outcome, courseCode);
      assert Run(store, tally) == Step(before, entries[i], maps, StripSectionNumber);
      ApplyAllStep(store0, entries, i, maps, StripSectionNumber);
      i := i + 1;
    }
    assert entries[..|entries|] == entries;
  }

  // =====================================================================
  // Properties of the refresh
  // =====================================================================

  /** The codes the entries are stored under. */
  function StrippedCodes(entries: seq<SourcedCourse>, strip: string -> string): (r: seq<string>)
    ensures |r| == |entries|
    ensures forall i :: 0 <= i < |entries| ==> r[i] == strip(entries[i].course.courseCode)
  {
    seq(|entries|, i requires 0 <= i < |entries| => strip(entries[i].course.courseCode))
  }

  /**
   * One entry never renames or renumbers a stored course; it adds one
   * course exactly when it creates one; it fails exactly when its code is
   * new and the course it would create is not storable, and then changes
   * nothing; otherwise its code is stored afterwards.
   */
  lemma ApplyEntryShape(store: seq<Course>, e: SourcedCourse, maps: AreaMaps, strip: string -> string)
    ensures var (s', o) := ApplyEntry(store, e, maps, strip);
      var code := strip(e.course.courseCode);
      && |s'| == |store| + (if o == Created then 1 else 0)
      && (forall i :: 0 <= i < |store| ==> s'[i].code == store[i].code && s'[i].id == store[i].id)
      && (o == Failed <==> code !in Codes(store) && !Storable(NewCourse(NextId(Ids(store)), code, e.course, e.sourceArea, maps)))
      && (o != Failed ==> code in Codes(s'))
      && (forall x :: x in Codes(s') <==> x in Codes(store) || (o != Failed && x == code))
      && (o == Created ==> (code !in Codes(store)
                           && s'[|store|].id == NextId(Ids(store))))
      && (o == Skipped || o == Failed ==> s' == store)
  {
    var code := strip(e.course.courseCode);
    var (s', o) := ApplyEntry(store, e, maps, strip);
    match FindCourse(store, code)
      case Some(k) =>
        MergeCourseMeaning(store[k], e.sourceArea, maps);
        forall x ensures x in Codes(s') <==> x in Codes(store) {
          assert Codes(s') == Codes(store);
        }
      case None =>
        if o == Created {
          assert s'[|store|].code == code;
          assert Codes(s') == Codes(store) + [code];
        }
  }

  /**
   * An API course whose Name is only white space, under a code not stored
   * yet: the trimmed name is "", the `required` name fails, and the entry
   * is an error that stores nothing.
   */
  lemma BlankNameFails(store: seq<Course>, e: SourcedCourse, maps: AreaMaps, strip: string -> string)
    requires strip(e.course.courseCode) !in Codes(store)
    requires e.course.name != "" && Trim(e.course.name) == ""
    ensures ApplyEntry(store, e, maps, strip) == (store, Failed)
  {
    var code := strip(e.course.courseCode);
    assert FindCourse(store, code).None?;
    NewCourseMeaning(NextId(Ids(store)), code, e.course, e.sourceArea, maps);
  }

  /** A refresh keeps course codes and course ids free of duplicates. */
  lemma ApplyEntryUnique(store: seq<Course>, e: SourcedCourse, maps: AreaMaps, strip: string -> string)
    requires NoDup(Codes(store)) && NoDup(Ids(store))
    ensures NoDup(Codes(ApplyEntry(store, e, maps, strip).0)) && NoDup(Ids(ApplyEntry(store, e, maps, strip).0))
  {
    ApplyEntryShape(store, e, maps, strip);
    var (s', o) := ApplyEntry(store, e, maps, strip);
    if o == Created {
      forall i, j | 0 <= i < j < |s'| ensures s'[i].code != s'[j].code && s'[i].id != s'[j].id {
        if j == |store| {
          assert store[i].code in Codes(store);
          assert Ids(store)[i] == store[i].id;
        }
      }
    }
  }

  /**
   * Applying the same entry again finds the course it produced and changes
   * nothing: it is skipped, or fails again when it failed the first time.
   */
  lemma ApplyEntryTwice(store: seq<Course>, e: SourcedCourse, maps: AreaMaps, strip: string -> string)
    ensures var (s', o) := ApplyEntry(store, e, maps, strip);
      ApplyEntry(s', e, maps, strip) == (s', if o == Failed then Failed else Skipped)
  {
    var code := strip(e.course.courseCode);
    var (s', o) := ApplyEntry(store, e, maps, strip);
    ApplyEntryShape(store, e, maps, strip);
    match FindCourse(store, code)
      case Some(k) =>
        MergeCourseIdempotent(store[k], e.sourceArea, maps);
        MergeCourseMeaning(store[k], e.sourceArea, maps);
        assert FindCourse(s', code) == Some(k);
      case None =>
        if o == Created {
          assert FindCourse(s', code) == Some(|store|);
          NewCourseMeaning(NextId(Ids(store)), code, e.course, e.sourceArea, maps);
        }
  }

  lemma StrippedCodesSnoc(entries: seq<SourcedCourse>, strip: string -> string)
    requires entries != []
    ensures StrippedCodes(entries, strip) ==
      StrippedCodes(entries[..|entries| - 1], strip) + [strip(entries[|entries| - 1].course.courseCode)]
  {
  }

  /**
   * Every entry is counted exactly once, as created, updated, skipped or an
   * error; without errors the processed set holds each stripped code once,
   * in order of first appearance.
   */
  lemma {:induction false} ApplyAllTally(store: seq<Course>, entries: seq<SourcedCourse>, maps: AreaMaps, strip: string -> string)
    ensures var t := ApplyAll(store, entries, maps, strip).tally;
      && t.created + t.updated + t.skipped + t.errors == |entries|
      && (t.errors == 0 ==> t.processed == Distinct(StrippedCodes(entries, strip)))
    decreases |entries|
  {
    if entries != [] {
      var p := entries[..|entries| - 1];
      var code := strip(entries[|entries| - 1].course.courseCode);
      ApplyAllTally(store, p, maps, strip);
      var r0 := ApplyAll(store, p, maps, strip);
      var o := ApplyEntry(r0.store, entries[|entries| - 1], maps, strip).1;
      var t := ApplyAll(store, entries, maps, strip).tally;
      assert t == Count(r0.tally, o, code);
      if t.errors == 0 {
        assert r0.tally.errors == 0 && o != Failed;
        StrippedCodesSnoc(entries, strip);
        DistinctSnoc(StrippedCodes(p, strip), code);
      }
    }
  }

  /**
   * The processed set holds each code once: exactly the stripped codes of
   * the entries that are stored after the run. A code whose only entries
   * failed is neither stored nor processed.
   */
  lemma {:induction false} ApplyAllProcessed(store: seq<Course>, entries: seq<SourcedCourse>, maps: AreaMaps, strip: string -> string)
    ensures var r := ApplyAll(store, entries, maps, strip);
      && NoDup(r.tally.processed)
      && forall x :: x in r.tally.processed <==> x in StrippedCodes(entries, strip) && x in Codes(r.store)
    decreases |entries|
  {
    if entries != [] {
      var p := entries[..|entries| - 1];
      var e := entries[|entries| - 1];
      var code := strip(e.course.courseCode);
      ApplyAllProcessed(store, p, maps, strip);
      StrippedCodesSnoc(entries, strip);
      var r0 := ApplyAll(store, p, maps, strip);
      ApplyEntryShape(r0.store, e, maps, strip);
    }
  }

  /**
   * Starting from a store without duplicate codes or ids, the refresh
   * keeps it so, never renames or renumbers a stored course, and leaves a
   * course for every processed code.
   */
  lemma {:induction false} ApplyAllStore(store: seq<Course>, entries: seq<SourcedCourse>, maps: AreaMaps, strip: string -> string)
    requires NoDup(Codes(store)) && NoDup(Ids(store))
    ensures var r := ApplyAll(store, entries, maps, strip);
      && NoDup(Codes(r.store)) && NoDup(Ids(r.store))
      && |r.store| >= |store|
      && (forall i :: 0 <= i < |store| ==> r.store[i].code == store[i].code && r.store[i].id == store[i].id)
      && (forall x :: x in r.tally.processed ==> x in Codes(r.store))
    decreases |entries|
  {
    if entries != [] {
      var p := entries[..|entries| - 1];
      var e := entries[|entries| - 1];
      ApplyAllStore(store, p, maps, strip);
      var r0 := ApplyAll(store, p, maps, strip);
      ApplyEntryShape(r0.store, e, maps, strip);
      ApplyEntryUnique(r0.store, e, maps, strip);
      var s' := ApplyEntry(r0.store, e, maps, strip).0;
      forall x | x in r0.tally.processed ensures x in Codes(s') {
        var i :| 0 <= i < |r0.store| && r0.store[i].code == x;
        assert s'[i].code == x;
      }
    }
  }
}
