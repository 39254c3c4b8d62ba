/**
 * The 5C course search page: a search term, a course number and five
 * school toggles drive a debounced search; the results are sorted by a
 * chosen column, and each course's school is read off the end of its code.
 */
module CoursesPage {
  import opened Util

  datatype School = PO | CM | HM | SC | PZ

  /** The schools in the order the selection record lists them. */
  const SchoolOrder: seq<School> := [PO, CM, HM, SC, PZ]

  function SchoolCode(s: School): string {
    match s
    case PO => "PO"
    case CM => "CM"
    case HM => "HM"
    case SC => "SC"
    case PZ => "PZ"
  }

  /** An entry of `all_instructor_ids`: a bare id before the instructors are fetched, a reference after. */
  datatype InstructorEntry = InstructorId(id: int) | InstructorRef(refId: int, name: string)

  datatype Course = Course(uid: string, id: int, code: string, codeSlug: string, name: string, createdAt: string,
                           updatedAt: string, departmentNames: seq<string>, requirementCodes: seq<string>,
                           requirementNames: seq<string>, termKeys: seq<string>, description: string,
                           allInstructorIds: seq<InstructorEntry>)

  /** The columns a course can be sorted by (`keyof Course`). */
  datatype CourseField = Uid | Id | Code | CodeSlug | Name | CreatedAt | UpdatedAt | DepartmentNames
                       | RequirementCodes | RequirementNames | TermKeys | Description | AllInstructorIds

  /** A column's value, by its run-time type. */
  datatype Value = Str(s: string) | Num(n: int) | Arr(items: seq<string>)

  /** How an array entry prints in `join`: numbers as digits, objects as "[object Object]". */
  function EntryText(e: InstructorEntry): string {
    match e
    case InstructorId(id) => IntToString(id)
    case InstructorRef(_, _) => "[object Object]"
  }

  function EntryTexts(s: seq<InstructorEntry>): (r: seq<string>)
    ensures |r| == |s| && forall i :: 0 <= i < |s| ==> r[i] == EntryText(s[i])
  {
    if s == [] then [] else [EntryText(s[0])] + EntryTexts(s[1..])
  }

  /** `course[field]`. */
  function FieldValue(c: Course, f: CourseField): Value {
    match f
    case Uid => Str(c.uid)
    case Id => Num(c.id)
    case Code => Str(c.code)
    case CodeSlug => Str(c.codeSlug)
    case Name => Str(c.name)
    case CreatedAt => Str(c.createdAt)
    case UpdatedAt => Str(c.updatedAt)
    case DepartmentNames => Arr(c.departmentNames)
    case RequirementCodes => Arr(c.requirementCodes)
    case RequirementNames => Arr(c.requirementNames)
    case TermKeys => Arr(c.termKeys)
    case Description => Str(c.description)
    case AllInstructorIds => Arr(EntryTexts(c.allInstructorIds))
  }

  // =====================================================================
  // Sorting
  // =====================================================================

  datatype Direction = Asc | Desc

  /** `a.localeCompare(b)`, with code-point order standing in for the locale's collation. */
  function StrCompare(a: string, b: string): (r: int)
    ensures r <= 0 <==> StringLe(a, b)
    ensures r == 0 <==> a == b
  {
    StringLeTotal(a, b);
    if a == b then 0
    else if StringLe(a, b) then -1
    else 1
  }

  lemma StrCompareFlips(a: string, b: string)
    ensures StrCompare(b, a) == -StrCompare(a, b)
  {
    StringLeTotal(a, b);
    if StringLe(a, b) && StringLe(b, a) {
      StringLeAntisymmetric(a, b);
    }
  }

  /** The comparator: strings and numbers directly, arrays by their ", "-joined text, anything else as equal. */
  function CompareValues(a: Value, b: Value, dir: Direction): int {
    if a.Str? && b.Str? then
      (if dir == Asc then StrCompare(a.s, b.s) else StrCompare(b.s, a.s))
    else if a.Num? && b.Num? then
      (if dir == Asc then a.n - b.n else b.n - a.n)
    else if a.Arr? then
      var x := Join(a.items, ", ");
      var y := if b.Arr? then Join(b.items, ", ") else "";
      (if dir == Asc then StrCompare(x, y) else StrCompare(y, x))
    else 0
  }

  function Compare(a: Course, b: Course, f: CourseField, dir: Direction): int {
    CompareValues(FieldValue(a, f), FieldValue(b, f), dir)
  }

  /** The text a string or array column sorts by. */
  function SortText(v: Value): string {
    match v
    case Str(s) => s
    case Num(_) => ""
    case Arr(items) => Join(items, ", ")
  }

  /**
   * What the comparator means on one column: ascending compares the text of
   * a string or array column and the number of a numeric one, and
   * descending is ascending with the arguments swapped.
   */
  lemma CompareMeaning(a: Course, b: Course, f: CourseField)
    ensures Compare(a, b, f, Desc) == Compare(b, a, f, Asc)
    ensures f == Id ==> Compare(a, b, f, Asc) == a.id - b.id
    ensures f != Id ==> Compare(a, b, f, Asc) == StrCompare(SortText(FieldValue(a, f)), SortText(FieldValue(b, f)))
  {
  }

  /** a may stay in front of b. */
  function Le(f: CourseField, dir: Direction): (Course, Course) -> bool {
    (a: Course, b: Course) => Compare(a, b, f, dir) <= 0
  }

  lemma LeTotalPreorder(f: CourseField, dir: Direction)
    ensures TotalPreorder(Le(f, dir))
  {
    var le := Le(f, dir);
    forall a, b ensures le(a, b) || le(b, a) {
      CompareMeaning(a, b, f);
      CompareMeaning(b, a, f);
      StrCompareFlips(SortText(FieldValue(a, f)), SortText(FieldValue(b, f)));
    }
    forall a, b, c | le(a, b) && le(b, c) ensures le(a, c) {
      CompareMeaning(a, b, f);
      CompareMeaning(b, c, f);
      CompareMeaning(a, c, f);
      var x, y, z := SortText(FieldValue(a, f)), SortText(FieldValue(b, f)), SortText(FieldValue(c, f));
      if f != Id {
        if dir == Asc {
          StringLeTransitive(x, y, z);
        } else {
          StringLeTransitive(z, y, x);
        }
      }
    }
  }

  /** `[...results].sort(comparator)`: a stable sort, ascending or descending on the column. */
  function SortResults(results: seq<Course>, f: CourseField, dir: Direction): (r: seq<Course>)
    ensures multiset(r) == multiset(results)
    ensures forall i, j :: 0 <= i < j < |r| ==> Compare(r[i], r[j], f, dir) <= 0
  {
    LeTotalPreorder(f, dir);
    var r := SortBy(results, Le(f, dir));
    assert SortedBy(r, Le(f, dir));
    r
  }

  /** Sorted by id ascending means increasing ids; descending by a text column means the texts decrease. */
  lemma SortResultsMeaning(results: seq<Course>, f: CourseField, dir: Direction, i: nat, j: nat)
    requires i < j < |SortResults(results, f, dir)|
    ensures var r := SortResults(results, f, dir);
      && (f == Id && dir == Asc ==> r[i].id <= r[j].id)
      && (f == Id && dir == Desc ==> r[i].id >= r[j].id)
      && (f != Id && dir == Asc ==> StringLe(SortText(FieldValue(r[i], f)), SortText(FieldValue(r[j], f))))
      && (f != Id && dir == Desc ==> StringLe(SortText(FieldValue(r[j], f)), SortText(FieldValue(r[i], f))))
  {
    var r := SortResults(results, f, dir);
    CompareMeaning(r[i], r[j], f);
  }

  /** `handleSort`: the same column flips the direction; a new column starts ascending. */
  function NextSort(field: CourseField, dir: Direction, clicked: CourseField): (r: (CourseField, Direction))
    ensures r.0 == clicked
    ensures clicked == field ==> r.1 != dir
    ensures clicked != field ==> r.1 == Asc
  {
    if field == clicked then (field, if dir == Asc then Desc else Asc) else (clicked, Asc)
  }

  lemma {:induction false} SortTwiceRestores(field: CourseField, dir: Direction)
    ensures var (f1, d1) := NextSort(field, dir, field);
      NextSort(f1, d1, field) == (field, dir)
  {
  }

  // =====================================================================
  // School code
  // =====================================================================

  /** `code.match(/([A-Z]{2})$/)`: the last two characters when both are upper-case letters, else "PO". */
  function ExtractSchoolCode(code: string): (r: string)
    ensures |r| == 2 && IsUpper(r[0]) && IsUpper(r[1])
    ensures |code| >= 2 && IsUpper(code[|code| - 2]) && IsUpper(code[|code| - 1]) ==> r == code[|code| - 2..]
    ensures !(|code| >= 2 && IsUpper(code[|code| - 2]) && IsUpper(code[|code| - 1])) ==> r == "PO"
  {
    if |code| >= 2 && IsUpper(code[|code| - 2]) && IsUpper(code[|code| - 1]) then code[|code| - 2..] else "PO"
  }

  /** A code ending in a school's letters is read as that school; "POST188HM" is Harvey Mudd. */
  lemma {:induction false} ExtractSchoolCodeOfSuffix(prefix: string, s: School)
    ensures ExtractSchoolCode(prefix + SchoolCode(s)) == SchoolCode(s)
  {
    var code := prefix + SchoolCode(s);
    assert code[|code| - 2..] == SchoolCode(s);
  }

  // =====================================================================
  // School selection
  // =====================================================================

  lemma Listed(s: School)
    ensures s in SchoolOrder
  {
    match s
    case PO => assert SchoolOrder[0] == s;
    case CM => assert SchoolOrder[1] == s;
    case HM => assert SchoolOrder[2] == s;
    case SC => assert SchoolOrder[3] == s;
    case PZ => assert SchoolOrder[4] == s;
  }

  /** A selection has a flag for each of the five schools. */
  predicate Complete(selected: map<School, bool>) {
    forall s :: s in selected
  }

  /** `handleSchoolToggle`: flips that school and keeps the others. */
  function Toggle(selected: map<School, bool>, s: School): (r: map<School, bool>)
    requires Complete(selected)
    ensures Complete(r)
    ensures r[s] == !selected[s]
    ensures forall t :: t != s ==> r[t] == selected[t]
  {
    selected[s := !selected[s]]
  }

  lemma {:induction false} ToggleTwice(selected: map<School, bool>, s: School)
    requires Complete(selected)
    ensures Toggle(Toggle(selected, s), s) == selected
  {
    var r := Toggle(Toggle(selected, s), s);
    assert forall t :: t in r <==> t in selected;
  }

  function ActiveFrom(order: seq<School>, selected: map<School, bool>): (r: seq<School>)
    requires Complete(selected)
    ensures forall s :: s in r <==> s in order && selected[s]
    ensures |r| <= |order|
  {
    if order == [] then [] else (if selected[order[0]] then [order[0]] else []) + ActiveFrom(order[1..], selected)
  }

  function Codes(s: seq<School>): (r: seq<string>)
    ensures |r| == |s| && forall i :: 0 <= i < |s| ==> r[i] == SchoolCode(s[i])
  {
    if s == [] then [] else [SchoolCode(s[0])] + Codes(s[1..])
  }

  /** The `schools` query parameter: the selected schools' codes, comma-separated, in record order. */
  function SchoolsParam(selected: map<School, bool>): (r: string)
    requires Complete(selected)
  {
    Join(Codes(ActiveFrom(SchoolOrder, selected)), ",")
  }

  /** The query names exactly the selected schools, in record order. */
  lemma SchoolsParamMeaning(selected: map<School, bool>)
    requires Complete(selected)
    ensures var parts := Split(SchoolsParam(selected), ',');
      (exists s :: selected[s]) ==> forall s :: SchoolCode(s) in parts <==> selected[s]
  {
    var active := ActiveFrom(SchoolOrder, selected);
    var codes := Codes(active);
    if exists s :: selected[s] {
      var s0 :| selected[s0];
      Listed(s0);
      assert s0 in active;
      forall k | 0 <= k < |codes| ensures ',' !in codes[k] {
        NoComma(active[k]);
      }
      SplitJoin(codes, ',');
      assert Split(SchoolsParam(selected), ',') == codes;
      forall s ensures SchoolCode(s) in codes <==> selected[s] {
        Listed(s);
        CodesMember(active, s);
      }
    }
  }

  lemma NoComma(s: School)
    ensures ',' !in SchoolCode(s)
  {
  }

  lemma CodesMember(active: seq<School>, s: School)
    ensures SchoolCode(s) in Codes(active) <==> s in active
  {
    var codes := Codes(active);
    if SchoolCode(s) in codes {
      var k :| 0 <= k < |codes| && codes[k] == SchoolCode(s);
      CodeInjective(active[k], s);
    }
    if s in active {
      var k :| 0 <= k < |active| && active[k] == s;
      assert codes[k] == SchoolCode(s);
    }
  }

  lemma CodeInjective(a: School, b: School)
    requires SchoolCode(a) == SchoolCode(b)
    ensures a == b
  {
    assert SchoolCode(a)[0] == SchoolCode(b)[0];
  }

  // =====================================================================
  // Search
  // =====================================================================

  /** What a change of the inputs triggers. */
  datatype SearchStep = RunSearch(term: string, number: string, schools: string) | ClearResults

  /** The search runs only when the term or the number is non-empty. */
  function OnInputs(term: string, number: string, selected: map<School, bool>): (r: SearchStep)
    requires Complete(selected)
    ensures r == ClearResults <==> term == "" && number == ""
    ensures r.RunSearch? ==> r.term == term && r.number == number && r.schools == SchoolsParam(selected)
  {
    if term != "" || number != "" then RunSearch(term, number, SchoolsParam(selected)) else ClearResults
  }

  /** `Number.isInteger(id) && id > 0`. */
  predicate ValidId(id: real) { id == id.Floor as real && id > 0.0 }

  /** The ids worth fetching: only positive integers, in order. */
  function ValidIds(ids: seq<real>): (r: seq<int>)
    ensures forall n :: n in r <==> n > 0 && (n as real) in ids
    ensures |r| <= |ids|
  {
    if ids == [] then []
    else
      var rest := ValidIds(ids[1..]);
      if ValidId(ids[0]) then [ids[0].Floor] + rest else rest
  }

  /**
   * `fetchInstructors`: one lookup per valid id, in order, each failed
   * lookup standing in as "Unknown Instructor"; `lookup` is the instructor API.
   */
  function FetchInstructors(ids: seq<real>, lookup: int -> Option<string>): (r: seq<InstructorEntry>)
    ensures |r| == |ValidIds(ids)|
    ensures forall i :: 0 <= i < |r| ==>
      var id := ValidIds(ids)[i];
      r[i] == InstructorRef(id, if lookup(id).Some? then lookup(id).value else "Unknown Instructor")
  {
    var valid := ValidIds(ids);
    seq(|valid|, i requires 0 <= i < |valid| => InstructorRef(valid[i], if lookup(valid[i]).Some? then lookup(valid[i]).value else "Unknown Instructor"))
  }

  /** The id of an instructor entry, whatever its form (`typeof instructor === 'number' ? …`). */
  function EntryId(e: InstructorEntry): int {
    match e
    case InstructorId(id) => id
    case InstructorRef(id, _) => id
  }

  function EntryIds(s: seq<InstructorEntry>): (r: seq<real>)
    ensures |r| == |s| && forall i :: 0 <= i < |s| ==> r[i] == EntryId(s[i]) as real
  {
    if s == [] then [] else [EntryId(s[0]) as real] + EntryIds(s[1..])
  }

  /** A course of the reply, with its instructors fetched when it lists any. */
  function WithInstructors(c: Course, lookup: int -> Option<string>): (r: Course)
    ensures c.allInstructorIds == [] ==> r == c
    ensures r.allInstructorIds != [] ==> c.allInstructorIds != []
    ensures r.(allInstructorIds := c.allInstructorIds) == c
  {
    if |c.allInstructorIds| > 0 then c.(allInstructorIds := FetchInstructors(EntryIds(c.allInstructorIds), lookup)) else c
  }

  function AllWithInstructors(data: seq<Course>, lookup: int -> Option<string>): (r: seq<Course>)
    ensures |r| == |data| && forall i :: 0 <= i < |data| ==> r[i] == WithInstructors(data[i], lookup)
  {
    if data == [] then [] else [WithInstructors(data[0], lookup)] + AllWithInstructors(data[1..], lookup)
  }

  class CourseSearch {
    var searchTerm: string
    var courseNumber: string
    var selectedSchools: map<School, bool>
    var results: seq<Course>
    var error: Option<string>
    var sortField: CourseField
    var sortDirection: Direction

    ghost predicate Valid()
      reads this
    {
      Complete(selectedSchools)
    }

    /** Every school selected, no results, sorted by name ascending. */
    constructor ()
      ensures Valid()
      ensures forall s :: selectedSchools[s]
      ensures searchTerm == "" && courseNumber == "" && results == [] && error == None
      ensures sortField == Name && sortDirection == Asc
    {
      searchTerm := "";
      courseNumber := "";
      var all := map[PO := true, CM := true, HM := true, SC := true, PZ := true];
      forall s ensures s in all {
        Listed(s);
      }
      selectedSchools := all;
      results := [];
      error := None;
      sortField := Name;
      sortDirection := Asc;
    }

    method HandleSchoolToggle(s: School)
      requires Valid()
      modifies this
      ensures Valid()
      ensures selectedSchools == Toggle(old(selectedSchools), s)
      ensures searchTerm == old(searchTerm) && courseNumber == old(courseNumber) && results == old(results)
      ensures sortField == old(sortField) && sortDirection == old(sortDirection) && error == old(error)
    {
      selectedSchools := selectedSchools[s := !selectedSchools[s]];
    }

    method HandleSort(field: CourseField)
      modifies this
      ensures (sortField, sortDirection) == NextSort(old(sortField), old(sortDirection), field)
      ensures searchTerm == old(searchTerm) && courseNumber == old(courseNumber) && results == old(results)
      ensures selectedSchools == old(selectedSchools) && error == old(error)
    {
      if sortField == field {
        sortDirection := if sortDirection == Asc then Desc else Asc;
      } else {
        sortField := field;
        sortDirection := Asc;
      }
    }

    /** The effect on an input change: start a search, or clear the results when both inputs are empty. */
    method InputsChanged() returns (step: SearchStep)
      requires Valid()
      modifies this
      ensures Valid()
      ensures step == OnInputs(searchTerm, courseNumber, selectedSchools)
      ensures step == ClearResults ==> results == []
      ensures step.RunSearch? ==> results == old(results)
      ensures searchTerm == old(searchTerm) && courseNumber == old(courseNumber) && selectedSchools == old(selectedSchools)
      ensures sortField == old(sortField) && sortDirection == old(sortDirection) && error == old(error)
    {
      step := OnInputs(searchTerm, courseNumber, selectedSchools);
      if step == ClearResults {
        results := [];
      }
    }

    /** `performSearch` once the reply is in: its courses, each with its instructors fetched; or, on failure, an error and no results. */
    method SearchReturned(reply: Option<seq<Course>>, lookup: int -> Option<string>)
      modifies this
      ensures reply.Some? ==> results == AllWithInstructors(reply.value, lookup) && error == None
      ensures reply.None? ==> results == [] && error == Some("Failed to fetch results. Please try again.")
      ensures searchTerm == old(searchTerm) && courseNumber == old(courseNumber) && selectedSchools == old(selectedSchools)
      ensures sortField == old(sortField) && sortDirection == old(sortDirection)
    {
      error := None;
      if reply.Some? {
        results := if |reply.value| > 0 then AllWithInstructors(reply.value, lookup) else [];
      } else {
        error := Some("Failed to fetch results. Please try again.");
        results := [];
      }
    }

    /** The list the table renders. */
    function Sorted(): seq<Course>
      reads this
    {
      SortResults(results, sortField, sortDirection)
    }
  }
}
