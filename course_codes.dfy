/**
 * Course-code parsing used by the CxID mapping script: the list of term
 * keys it queries, and the extraction of the base course code and the
 * two-letter school code from an API course code such as
 * "CSCI005  HM-01".
 */
module CourseCodes {
  import opened Util

  // =====================================================================
  // Term keys
  // =====================================================================

  const FirstYear := 2002
  /** The script's fixed "today": November 2025. */
  const CurrentYear := 2025
  const CurrentMonth := 11

  function CurrentTerm(): string {
    if CurrentMonth >= 7 then "FA" else "SP"
  }

  function TermKey(year: nat, term: string): string {
    NatToString(year) + ";" + term
  }

  /** The keys one year contributes: spring unless it is the first year, fall unless it is still to come. */
  function TermsOfYear(year: nat): seq<string> {
    (if year > FirstYear || CurrentTerm() == "SP" then [TermKey(year, "SP")] else [])
    + (if year < CurrentYear || (year == CurrentYear && CurrentTerm() == "FA") then [TermKey(year, "FA")] else [])
  }

  /** The keys of every year from the first through `last`, year by year. */
  function TermsThrough(last: int): seq<string>
    decreases last - FirstYear
  {
    if last < FirstYear then [] else TermsThrough(last - 1) + TermsOfYear(last)
  }

  /** generateTermKeys. */
  method GenerateTermKeys() returns (terms: seq<string>)
    ensures terms == TermsThrough(CurrentYear)
  {
    terms := [];
    var year := FirstYear;
    while year <= CurrentYear
      invariant FirstYear <= year <= CurrentYear + 1
      invariant terms == TermsThrough(year - 1)
    {
      if year > FirstYear || CurrentTerm() == "SP" {
        terms := terms + [TermKey(year, "SP")];
      }
      if year < CurrentYear || (year == CurrentYear && CurrentTerm() == "FA") {
        terms := terms + [TermKey(year, "FA")];
      }
      year := year + 1;
    }
  }

  lemma TermsOfFirstYear()
    ensures TermsOfYear(FirstYear) == [TermKey(FirstYear, "FA")]
  {
  }

  lemma TermsOfLaterYear(y: nat)
    requires FirstYear < y <= CurrentYear
    ensures TermsOfYear(y) == [TermKey(y, "SP"), TermKey(y, "FA")]
  {
  }

  /** `keys` holds the 2002 fall key, then spring and fall of every later year through y. */
  predicate ShapedThrough(keys: seq<string>, y: int) {
    && |keys| == 2 * (y - FirstYear) + 1
    && keys[0] == TermKey(FirstYear, "FA")
    && forall x :: FirstYear < x <= y ==>
      keys[2 * (x - FirstYear) - 1] == TermKey(x, "SP") && keys[2 * (x - FirstYear)] == TermKey(x, "FA")
  }

  /** Appending one year's spring and fall keys extends the shape by that year. */
  lemma {:induction false} ShapedThroughNext(keys: seq<string>, y: int)
    requires FirstYear < y && ShapedThrough(keys, y - 1)
    ensures ShapedThrough(keys + [TermKey(y, "SP"), TermKey(y, "FA")], y)
  {
    var next := keys + [TermKey(y, "SP"), TermKey(y, "FA")];
    forall x | FirstYear < x < y
      ensures next[2 * (x - FirstYear) - 1] == TermKey(x, "SP") && next[2 * (x - FirstYear)] == TermKey(x, "FA")
    {
      assert next[2 * (x - FirstYear) - 1] == keys[2 * (x - FirstYear) - 1];
      assert next[2 * (x - FirstYear)] == keys[2 * (x - FirstYear)];
    }
  }

  /** Through year y the list has the 2002 fall key, then spring and fall of every later year. */
  lemma {:induction false} TermsThroughShape(y: int)
    requires FirstYear <= y <= CurrentYear
    ensures ShapedThrough(TermsThrough(y), y)
    decreases y
  {
    if y == FirstYear {
      assert TermsThrough(y - 1) == [];
      TermsOfFirstYear();
      assert TermsThrough(y) == [TermKey(FirstYear, "FA")];
    } else {
      TermsThroughShape(y - 1);
      TermsOfLaterYear(y);
      assert TermsThrough(y) == TermsThrough(y - 1) + [TermKey(y, "SP"), TermKey(y, "FA")];
      ShapedThroughNext(TermsThrough(y - 1), y);
    }
  }

  /** With the fixed date the keys run from "2002;FA" to "2025;FA", 47 in all. */
  lemma TermKeysRange()
    ensures |TermsThrough(CurrentYear)| == 47
    ensures TermsThrough(CurrentYear)[0] == TermKey(2002, "FA")
    ensures TermsThrough(CurrentYear)[46] == TermKey(2025, "FA")
    ensures ShapedThrough(TermsThrough(CurrentYear), CurrentYear)
  {
    TermsThroughShape(CurrentYear);
    var keys := TermsThrough(CurrentYear);
    assert keys[2 * (CurrentYear - FirstYear)] == TermKey(CurrentYear, "FA");
  }

  // =====================================================================
  // Base course code
  // =====================================================================

  predicate AllAlnum(s: string) {
    forall i :: 0 <= i < |s| ==> IsAlnum(s[i])
  }

  predicate AllDigits(s: string) {
    |s| > 0 && forall i :: 0 <= i < |s| ==> IsDigit(s[i])
  }

  /**
   * The regular expression /^([A-Z0-9]+?)([A-Z]{2})(-\d+)?$/i matches s
   * with p as its first group: p, then two letters, then nothing or a
   * hyphen and digits.
   */
  predicate BasePattern(s: string, p: string) {
    && 0 < |p| && |p| + 2 <= |s| && s[..|p|] == p && AllAlnum(p)
    && IsLetter(s[|p|]) && IsLetter(s[|p| + 1])
    && (|s| == |p| + 2 || (s[|p| + 2] == '-' && AllDigits(s[|p| + 3..])))
  }

  /** `s.split('-')[0]`: everything before the first hyphen. */
  function BeforeHyphen(s: string): (r: string)
    ensures '-' !in r
    ensures |r| <= |s| && r == s[..|r|]
  {
    match IndexOf(s, '-')
      case None => s
      case Some(k) => s[..k]
  }

  /** Decides the base pattern by looking at the text before the first hyphen. */
  function MatchBase(s: string): Option<string> {
    var a := BeforeHyphen(s);
    if |a| >= 3 && AllAlnum(a) && IsLetter(a[|a| - 2]) && IsLetter(a[|a| - 1])
       && (|a| == |s| || AllDigits(s[|a| + 1..]))
    then Some(a[..|a| - 2])
    else None
  }

  /**
   * MatchBase finds the group exactly when the regular expression
   * matches, and the group is the only one possible, so the lazy
   * quantifier's choice is that one.
   */
  lemma {:induction false} MatchBaseIsPattern(s: string)
    ensures MatchBase(s).Some? ==> BasePattern(s, MatchBase(s).value)
    ensures forall p :: BasePattern(s, p) ==> MatchBase(s) == Some(p)
  {
    var a := BeforeHyphen(s);
    if MatchBase(s).Some? {
      var p := MatchBase(s).value;
      assert s[..|p|] == a[..|p|];
      if |a| < |s| {
        assert s[|a|] == '-';
      }
    }
    forall p | BasePattern(s, p) ensures MatchBase(s) == Some(p) {
      var n := |p|;
      assert forall i :: 0 <= i < n + 2 ==> s[i] != '-' by {
        forall i | 0 <= i < n + 2 ensures s[i] != '-' {
          if i < n {
            assert s[i] == p[i];
          }
        }
      }
      if |s| == n + 2 {
        assert '-' !in s;
        assert a == s;
      } else {
        assert IndexOf(s, '-') == Some(n + 2);
        assert a == s[..n + 2];
      }
      assert a[..n] == p;
    }
  }

  /** extractBaseCourseCode: remove all whitespace, then take the pattern's group or the text before the first hyphen. */
  function ExtractBaseCourseCode(courseCode: string): string {
    var s := RemoveSpaces(courseCode);
    match MatchBase(s)
      case Some(p) => ToUpper(p)
      case None => ToUpper(BeforeHyphen(s))
  }

  /**
   * The base code is the uppercased pattern group when the whitespace-free
   * code matches, else the uppercased text before its first hyphen; it
   * never holds whitespace or a hyphen.
   */
  lemma {:induction false} ExtractBaseMeaning(courseCode: string)
    ensures var s := RemoveSpaces(courseCode);
      && (forall p :: BasePattern(s, p) ==> ExtractBaseCourseCode(courseCode) == ToUpper(p))
      && ((forall p :: !BasePattern(s, p)) ==> ExtractBaseCourseCode(courseCode) == ToUpper(BeforeHyphen(s)))
    ensures '-' !in ExtractBaseCourseCode(courseCode)
    ensures forall i :: 0 <= i < |ExtractBaseCourseCode(courseCode)| ==> !IsSpace(ExtractBaseCourseCode(courseCode)[i])
  {
    var s := RemoveSpaces(courseCode);
    MatchBaseIsPattern(s);
    var r := ExtractBaseCourseCode(courseCode);
    var src := if MatchBase(s).Some? then MatchBase(s).value else BeforeHyphen(s);
    assert r == ToUpper(src);
    assert forall i :: 0 <= i < |src| ==> src[i] != '-' && !IsSpace(src[i]) by {
      forall i | 0 <= i < |src| ensures src[i] != '-' && !IsSpace(src[i]) {
        if MatchBase(s).Some? {
          assert IsAlnum(src[i]);
        } else {
          assert src[i] == s[i];
        }
      }
    }
    forall i | 0 <= i < |r| ensures r[i] != '-' && !IsSpace(r[i]) {
      assert r[i] == UpperChar(src[i]);
    }
  }

  // =====================================================================
  // School code
  // =====================================================================

  /** /([A-Z]{2})(?:-\d+)?$/i matches s starting at index i. */
  predicate SchoolAt(s: string, i: nat) {
    && i + 2 <= |s| && IsLetter(s[i]) && IsLetter(s[i + 1])
    && (i + 2 == |s| || (s[i + 2] == '-' && AllDigits(s[i + 3..])))
  }

  /** The leftmost index from `from` on where the unanchored pattern matches. */
  function LeftmostSchool(s: string, from: nat): (r: Option<nat>)
    ensures r.Some? ==> from <= r.value && SchoolAt(s, r.value)
    ensures r.Some? ==> forall j :: from <= j < r.value ==> !SchoolAt(s, j)
    ensures r.None? ==> forall j :: from <= j ==> !SchoolAt(s, j)
    decreases |s| - from
  {
    if from + 2 > |s| then None
    else if SchoolAt(s, from) then Some(from)
    else LeftmostSchool(s, from + 1)
  }

  /** The pattern can match at one index at most. */
  lemma {:induction false} SchoolAtUnique(s: string, i: nat)
    requires SchoolAt(s, i)
    ensures forall j :: SchoolAt(s, j) ==> j == i
  {
    assert forall k :: i + 2 <= k < |s| ==> !IsLetter(s[k]) by {
      forall k | i + 2 <= k < |s| ensures !IsLetter(s[k]) {
        if k > i + 2 {
          assert s[k] == s[i + 3..][k - i - 3];
        }
      }
    }
  }

  /** extractSchoolCode: the matched two letters uppercased, else the primary association, else "UNK". */
  function ExtractSchoolCode(courseCode: string, primaryAssociation: string): string {
    var s := RemoveSpaces(courseCode);
    match LeftmostSchool(s, 0)
      case Some(i) => ToUpper(s[i..i + 2])
      case None => if primaryAssociation != "" then primaryAssociation else "UNK"
  }

  /**
   * When the whitespace-free code ends in two letters, optionally followed
   * by a hyphen and digits, the school code is those two letters
   * uppercased; otherwise it is the fallback.
   */
  lemma {:induction false} ExtractSchoolMeaning(courseCode: string, primaryAssociation: string, i: nat)
    ensures SchoolAt(RemoveSpaces(courseCode), i) ==>
      var s := RemoveSpaces(courseCode);
      var r := ExtractSchoolCode(courseCode, primaryAssociation);
      && r == ToUpper(s[i..i + 2])
      && |r| == 2 && IsUpper(r[0]) && IsUpper(r[1])
    ensures (forall j :: !SchoolAt(RemoveSpaces(courseCode), j)) ==>
      ExtractSchoolCode(courseCode, primaryAssociation) == (if primaryAssociation != "" then primaryAssociation else "UNK")
  {
    var s := RemoveSpaces(courseCode);
    if SchoolAt(s, i) {
      SchoolAtUnique(s, i);
      var r := ExtractSchoolCode(courseCode, primaryAssociation);
      assert r == ToUpper(s[i..i + 2]);
      assert r[0] == UpperChar(s[i]) && r[1] == UpperChar(s[i + 1]);
    }
  }

  lemma AlnumNotSpace(c: char)
    requires IsAlnum(c) || c == '-'
    ensures !IsSpace(c)
  {
  }

  /** Removing whitespace from the documented shape leaves the number's non-blanks and the suffix. */
  lemma {:induction false} ShapeWithoutSpaces(number: string, gap: string, tail: string)
    requires forall i :: 0 <= i < |gap| ==> IsSpace(gap[i])
    requires forall i :: 0 <= i < |tail| ==> IsAlnum(tail[i]) || tail[i] == '-'
    ensures RemoveSpaces(number + gap + tail) == RemoveSpaces(number) + tail
  {
    var rest := gap + tail;
    assert number + gap + tail == number + rest;
    GapThenTail(gap, tail);
    RemoveSpacesAppend(number, rest);
  }

  /** Blanks before kept characters vanish. */
  lemma {:induction false} GapThenTail(gap: string, tail: string)
    requires forall i :: 0 <= i < |gap| ==> IsSpace(gap[i])
    requires forall i :: 0 <= i < |tail| ==> IsAlnum(tail[i]) || tail[i] == '-'
    ensures RemoveSpaces(gap + tail) == tail
  {
    AlnumKept(tail);
    RemoveSpacesAll(gap);
    RemoveSpacesAppend(gap, tail);
  }

  /** Letters, digits and hyphens are all kept. */
  lemma {:induction false} AlnumKept(tail: string)
    requires forall i :: 0 <= i < |tail| ==> IsAlnum(tail[i]) || tail[i] == '-'
    ensures RemoveSpaces(tail) == tail
  {
    forall i | 0 <= i < |tail| ensures !IsSpace(tail[i]) {
      AlnumNotSpace(tail[i]);
    }
    RemoveSpacesNone(tail);
  }

  /** A base group followed by a school and a section matches both patterns where expected. */
  lemma {:induction false} ShapePatterns(p: string, school: string, section: string)
    requires |p| >= 1 && AllAlnum(p)
    requires |school| == 2 && IsLetter(school[0]) && IsLetter(school[1])
    requires AllDigits(section)
    ensures BasePattern(p + (school + "-" + section), p)
    ensures SchoolAt(p + (school + "-" + section), |p|)
    ensures (p + (school + "-" + section))[|p|..|p| + 2] == school
  {
    var s := p + (school + "-" + section);
    assert s[..|p|] == p;
    assert s[|p| + 3..] == section;
  }

  /**
   * The documented shape "MATH 058BL  PO-01": a course number (which may
   * hold spaces), blanks, a two-letter school and a hyphenated section.
   * Its base code is the number without spaces, uppercased, and its school
   * code the two letters uppercased.
   */
  lemma {:induction false} DocumentedShape(number: string, gap: string, school: string, section: string, primaryAssociation: string)
    requires |RemoveSpaces(number)| >= 1 && AllAlnum(RemoveSpaces(number))
    requires forall i :: 0 <= i < |gap| ==> IsSpace(gap[i])
    requires |school| == 2 && IsLetter(school[0]) && IsLetter(school[1])
    requires AllDigits(section)
    ensures ExtractBaseCourseCode(number + gap + school + "-" + section) == ToUpper(RemoveSpaces(number))
    ensures ExtractSchoolCode(number + gap + school + "-" + section, primaryAssociation) == ToUpper(school)
  {
    var code := number + gap + school + "-" + section;
    var p := RemoveSpaces(number);
    var tail := school + "-" + section;
    assert code == number + gap + tail;
    forall i | 0 <= i < |tail| ensures IsAlnum(tail[i]) || tail[i] == '-' {
      if i >= 3 {
        assert tail[i] == section[i - 3];
      }
    }
    ShapeWithoutSpaces(number, gap, tail);
    ShapePatterns(p, school, section);
    ExtractBaseMeaning(code);
    ExtractSchoolMeaning(code, primaryAssociation, |p|);
  }

  /** A number written as two blank-free words separated by one space loses only that space. */
  lemma {:induction false} TwoWordNumber(a: string, b: string)
    requires forall i :: 0 <= i < |a| ==> !IsSpace(a[i])
    requires forall i :: 0 <= i < |b| ==> !IsSpace(b[i])
    ensures RemoveSpaces(a + " " + b) == a + b
  {
    assert a + " " + b == a + (" " + b);
    RemoveSpacesNone(a);
    RemoveSpacesNone(b);
    RemoveSpacesAppend(" ", b);
    RemoveSpacesAppend(a, " " + b);
  }

  lemma ToUpperUnchanged(s: string)
    requires forall i :: 0 <= i < |s| ==> !IsLower(s[i])
    ensures ToUpper(s) == s
  {
  }

  /** The documented examples share this form: a number, two blanks, an uppercase school and "-01". */
  lemma {:induction false} DocumentedExample(number: string, base: string, school: string, primaryAssociation: string)
    requires RemoveSpaces(number) == base && |base| >= 1 && AllAlnum(base)
    requires forall i :: 0 <= i < |base| ==> !IsLower(base[i])
    requires |school| == 2 && IsUpper(school[0]) && IsUpper(school[1])
    ensures ExtractBaseCourseCode(number + "  " + school + "-01") == base
    ensures ExtractSchoolCode(number + "  " + school + "-01", primaryAssociation) == school
  {
    assert number + "  " + school + "-01" == number + "  " + school + "-" + "01";
    assert AllDigits("01");
    assert forall i :: 0 <= i < |"  "| ==> IsSpace("  "[i]);
    DocumentedShape(number, "  ", school, "01", primaryAssociation);
    ToUpperUnchanged(base);
    ToUpperUnchanged(school);
  }

  /** The documented example "CSCI005  HM-01" yields "CSCI005" and "HM". */
  lemma ExampleCsci005(code: string)
    requires code == "CSCI005  HM-01"
    ensures ExtractBaseCourseCode(code) == "CSCI005"
    ensures ExtractSchoolCode(code, "TEST") == "HM"
  {
    assert "CSCI005" + "  " == "CSCI005  ";
    assert "CSCI005  " + "HM" == "CSCI005  HM";
    assert "CSCI005  HM" + "-01" == code;
    OneWordExample("CSCI005", "HM", "TEST");
  }

  /** A documented example whose number is one blank-free word: the base code is that word. */
  lemma {:induction false} OneWordExample(a: string, school: string, primaryAssociation: string)
    requires a != [] && forall i :: 0 <= i < |a| ==> IsAlnum(a[i]) && !IsLower(a[i])
    requires |school| == 2 && IsUpper(school[0]) && IsUpper(school[1])
    ensures ExtractBaseCourseCode(a + "  " + school + "-01") == a
    ensures ExtractSchoolCode(a + "  " + school + "-01", primaryAssociation) == school
  {
    forall i | 0 <= i < |a| ensures !IsSpace(a[i]) {
      AlnumNotSpace(a[i]);
    }
    RemoveSpacesNone(a);
    DocumentedExample(a, a, school, primaryAssociation);
  }

  /** A documented example whose number is two blank-free words: the base code joins them. */
  lemma {:induction false} TwoWordExample(a: string, b: string, school: string, primaryAssociation: string)
    requires a != [] && forall i :: 0 <= i < |a| ==> IsAlnum(a[i]) && !IsLower(a[i])
    requires forall i :: 0 <= i < |b| ==> IsAlnum(b[i]) && !IsLower(b[i])
    requires |school| == 2 && IsUpper(school[0]) && IsUpper(school[1])
    ensures ExtractBaseCourseCode(a + " " + b + "  " + school + "-01") == a + b
    ensures ExtractSchoolCode(a + " " + b + "  " + school + "-01", primaryAssociation) == school
  {
    forall i | 0 <= i < |a| ensures !IsSpace(a[i]) {
      AlnumNotSpace(a[i]);
    }
    forall i | 0 <= i < |b| ensures !IsSpace(b[i]) {
      AlnumNotSpace(b[i]);
    }
    TwoWordNumber(a, b);
    var base := a + b;
    forall i | 0 <= i < |base| ensures IsAlnum(base[i]) && !IsLower(base[i]) {
      if i >= |a| {
        assert base[i] == b[i - |a|];
      }
    }
    DocumentedExample(a + " " + b, base, school, primaryAssociation);
  }

  /** The documented example "MUS 130  SC-01" yields "MUS130" and "SC". */
  lemma ExampleMus(code: string)
    requires code == "MUS 130  SC-01"
    ensures ExtractBaseCourseCode(code) == "MUS130"
    ensures ExtractSchoolCode(code, "TEST") == "SC"
  {
    assert "MUS" + " " == "MUS ";
    assert "MUS " + "130" == "MUS 130";
    assert "MUS 130" + "  " == "MUS 130  ";
    assert "MUS 130  " + "SC" == "MUS 130  SC";
    assert "MUS 130  SC" + "-01" == code;
    assert "MUS" + "130" == "MUS130";
    TwoWordExample("MUS", "130", "SC", "TEST");
  }

  /** The documented example "MATH 058BL  PO-01" yields "MATH058BL" and "PO". */
  lemma ExampleMath(code: string)
    requires code == "MATH 058BL  PO-01"
    ensures ExtractBaseCourseCode(code) == "MATH058BL"
    ensures ExtractSchoolCode(code, "TEST") == "PO"
  {
    assert "MATH" + " " == "MATH ";
    assert "MATH " + "058BL" == "MATH 058BL";
    assert "MATH 058BL" + "  " == "MATH 058BL  ";
    assert "MATH 058BL  " + "PO" == "MATH 058BL  PO";
    assert "MATH 058BL  PO" + "-01" == code;
    assert "MATH" + "058BL" == "MATH058BL";
    TwoWordExample("MATH", "058BL", "PO", "TEST");
  }

  /** The documented example "HIST 100AI  PO-01" yields "HIST100AI" and "PO". */
  lemma ExampleHist(code: string)
    requires code == "HIST 100AI  PO-01"
    ensures ExtractBaseCourseCode(code) == "HIST100AI"
    ensures ExtractSchoolCode(code, "TEST") == "PO"
  {
    assert "HIST" + " " == "HIST ";
    assert "HIST " + "100AI" == "HIST 100AI";
    assert "HIST 100AI" + "  " == "HIST 100AI  ";
    assert "HIST 100AI  " + "PO" == "HIST 100AI  PO";
    assert "HIST 100AI  PO" + "-01" == code;
    assert "HIST" + "100AI" == "HIST100AI";
    TwoWordExample("HIST", "100AI", "PO", "TEST");
  }

  /** The documented example "BIOL 052R  HM-01" yields "BIOL052R" and "HM". */
  lemma ExampleBiol(code: string)
    requires code == "BIOL 052R  HM-01"
    ensures ExtractBaseCourseCode(code) == "BIOL052R"
    ensures ExtractSchoolCode(code, "TEST") == "HM"
  {
    assert "BIOL" + " " == "BIOL ";
    assert "BIOL " + "052R" == "BIOL 052R";
    assert "BIOL 052R" + "  " == "BIOL 052R  ";
    assert "BIOL 052R  " + "HM" == "BIOL 052R  HM";
    assert "BIOL 052R  HM" + "-01" == code;
    assert "BIOL" + "052R" == "BIOL052R";
    TwoWordExample("BIOL", "052R", "HM", "TEST");
  }

  /** The key the script files a course under, as the database's code_slug writes it. */
  function CourseKey(courseCode: string, primaryAssociation: string): string {
    ExtractBaseCourseCode(courseCode) + "-" + ExtractSchoolCode(courseCode, primaryAssociation)
  }
}
