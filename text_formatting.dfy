/**
 * Review text formatting: HTML entities are decoded, line-break tags
 * become newlines, runs of three or more newlines (with whitespace between)
 * become one blank line, and the result is trimmed; the component then
 * renders one paragraph per line.
 */
module TextFormatting {
  import opened Util

  // =====================================================================
  // The replacement scanners (one global regex replace each)
  // =====================================================================

  /** `s.replace(/pat/g, repl)` for a literal pattern: leftmost, non-overlapping. */
  function ReplaceLit(s: string, pat: string, repl: string): string
    requires pat != []
    decreases |s|
  {
    if |s| < |pat| then s
    else if s[..|pat|] == pat then repl + ReplaceLit(s[|pat|..], pat, repl)
    else [s[0]] + ReplaceLit(s[1..], pat, repl)
  }

  /** x starts with pat up to ASCII case (pat is lower case). */
  predicate StartsCI(x: string, pat: string) {
    |pat| <= |x| && ToLower(x[..|pat|]) == pat
  }

  /** `s.replace(/pat/gi, repl)` for a literal lower-case pattern. */
  function ReplaceCI(s: string, pat: string, repl: string): string
    requires pat != []
    decreases |s|
  {
    if |s| < |pat| then s
    else if StartsCI(s, pat) then repl + ReplaceCI(s[|pat|..], pat, repl)
    else [s[0]] + ReplaceCI(s[1..], pat, repl)
  }

  /** The number of leading white-space characters. */
  function SpaceRun(x: string): (n: nat)
    ensures n <= |x|
    ensures forall i :: 0 <= i < n ==> IsSpace(x[i])
    ensures n < |x| ==> !IsSpace(x[n])
  {
    if x != [] && IsSpace(x[0]) then 1 + SpaceRun(x[1..]) else 0
  }

  /** The length of a match of `<br\s*\/?>` (any case) at the start of x, or 0. */
  function BrLength(x: string): (n: nat)
    ensures n <= |x|
    ensures n > 0 ==> StartsCI(x, "<br") && x[n - 1] == '>'
  {
    if !StartsCI(x, "<br") then 0
    else
      var k := 3 + SpaceRun(x[3..]);
      if k < |x| && x[k] == '>' then k + 1
      else if k + 1 < |x| && x[k] == '/' && x[k + 1] == '>' then k + 2
      else 0
  }

  /** `s.replace(/<br\s*\/?>/gi, '\n')`. */
  function ReplaceBr(s: string): string
    decreases |s|
  {
    if s == [] then []
    else if BrLength(s) > 0 then "\n" + ReplaceBr(s[BrLength(s)..])
    else [s[0]] + ReplaceBr(s[1..])
  }

  /**
   * The length of a match of `\n\s*\n\s*\n` at the start of x, or 0: a
   * newline followed by a white-space run holding at least two more
   * newlines; the greedy match ends after the run's last newline.
   */
  function CollapseLength(x: string): (n: nat)
    ensures n <= |x|
    ensures n > 0 ==> n >= 2 && forall i :: 0 <= i < n ==> IsSpace(x[i])
  {
    if x == [] || x[0] != '\n' then 0
    else
      var run := x[1..1 + SpaceRun(x[1..])];
      if Occurrences(run, '\n') < 2 then 0
      else match LastIndexOf(run, '\n')
        case None => 0
        case Some(q) => q + 2
  }

  /** `s.replace(/\n\s*\n\s*\n/g, '\n\n')`. */
  function Collapse(s: string): string
    decreases |s|
  {
    if s == [] then []
    else if CollapseLength(s) > 0 then "\n\n" + Collapse(s[CollapseLength(s)..])
    else [s[0]] + Collapse(s[1..])
  }

  // =====================================================================
  // formatReviewText
  // =====================================================================

  /** The entity replacements, in the order they are applied: `&amp;` and `&lt;` first, then the rest. */
  const LeadingEntities: seq<(string, string)> := [("&amp;", "&"), ("&lt;", "<")]

  const LaterEntities: seq<(string, string)> := [
    ("&gt;", ">"), ("&quot;", "\""), ("&#x27;", "'"), ("&#39;", "'"),
    ("&apos;", "'"), ("&#x2F;", "/"), ("&nbsp;", " "), ("&copy;", "©"), ("&reg;", "®"),
    ("&trade;", "™"), ("&hellip;", "…"), ("&mdash;", "—"), ("&ndash;", "–"),
    ("&lsquo;", "'"), ("&rsquo;", "'"), ("&ldquo;", "\""), ("&rdquo;", "\""), ("&bull;", "•"),
    ("&middot;", "·"), ("&deg;", "°")]

  /** The tab and space entities, applied after the tags. */
  const SpaceTable: seq<(string, string)> := [("&tab;", "\t"), ("&emsp;", "    "), ("&ensp;", "  ")]

  /** The block tags replaced by a newline after `<br>`. */
  const BlockTags: seq<string> := ["<p>", "</p>", "<div>", "</div>"]

  /** Each replacement of a table applied in turn. */
  function ReplaceEach(s: string, table: seq<(string, string)>): string
    requires forall k :: 0 <= k < |table| ==> table[k].0 != []
    decreases |table|
  {
    if table == [] then s else ReplaceEach(ReplaceLit(s, table[0].0, table[0].1), table[1..])
  }

  function ReplaceTags(s: string, tags: seq<string>): string
    requires forall k :: 0 <= k < |tags| ==> tags[k] != []
    decreases |tags|
  {
    if tags == [] then s else ReplaceTags(ReplaceCI(s, tags[0], "\n"), tags[1..])
  }

  function Entities(s: string): string { ReplaceEach(ReplaceEach(s, LeadingEntities), LaterEntities) }
  function Tags(s: string): string { ReplaceTags(ReplaceBr(s), BlockTags) }
  function Spaces(s: string): string { ReplaceEach(s, SpaceTable) }

  /** `formatReviewText`. */
  function FormatReviewText(text: string): (r: string)
    ensures text == "" ==> r == ""
    ensures r == [] || (!IsSpace(r[0]) && !IsSpace(r[|r| - 1]))
  {
    if text == "" then "" else Trim(Collapse(Spaces(Tags(Entities(text)))))
  }

  /** The paragraphs `FormattedReviewText` renders. */
  function Paragraphs(text: string): seq<string> {
    Split(FormatReviewText(text), '\n')
  }

  // =====================================================================
  // Properties
  // =====================================================================

  /** One paragraph per line: as many as newlines plus one, and together they spell the formatted text. */
  lemma ParagraphsAreLines(text: string)
    ensures |Paragraphs(text)| == Occurrences(FormatReviewText(text), '\n') + 1
    ensures Join(Paragraphs(text), "\n") == FormatReviewText(text)
    ensures forall k :: 0 <= k < |Paragraphs(text)| ==> '\n' !in Paragraphs(text)[k]
  {
    SplitLength(FormatReviewText(text), '\n');
    JoinSplit(FormatReviewText(text), '\n');
  }

  /** A string shorter than the pattern is left alone. */
  lemma ReplaceEachShort(s: string, table: seq<(string, string)>)
    requires forall k :: 0 <= k < |table| ==> |table[k].0| > |s|
    ensures ReplaceEach(s, table) == s
  {
  }

  lemma ReplaceTagsShort(s: string, tags: seq<string>)
    requires forall k :: 0 <= k < |tags| ==> |tags[k]| > |s|
    ensures ReplaceTags(s, tags) == s
  {
  }

  /** `&amp;` is decoded first, so an escaped entity is decoded twice: "&amp;lt;" becomes "<". */
  lemma AmpDecodedFirst(text: string)
    requires text == "&amp;lt;"
    ensures FormatReviewText(text) == "<"
  {
    EntitiesOfEscapedLt(text);
    LessThanKept("<");
  }

  lemma EntitiesOfEscapedLt(text: string)
    requires text == "&amp;lt;"
    ensures Entities(text) == "<"
  {
    AmpStep(text);
    LtStep("&lt;");
    var t := LeadingEntities;
    ReplaceEachStep(text, t, "&lt;");
    ReplaceEachStep("&lt;", t[1..], "<");
    assert ReplaceEach(text, t) == "<";
    LongPatterns();
    ReplaceEachShort("<", LaterEntities);
  }

  lemma ReplaceEachStep(s: string, table: seq<(string, string)>, s': string)
    requires forall k :: 0 <= k < |table| ==> table[k].0 != []
    requires table != [] && ReplaceLit(s, table[0].0, table[0].1) == s'
    ensures ReplaceEach(s, table) == ReplaceEach(s', table[1..])
  {
  }

  lemma AmpStep(text: string)
    requires text == "&amp;lt;"
    ensures ReplaceLit(text, "&amp;", "&") == "&lt;"
  {
    assert text[..5] == "&amp;" && text[5..] == "lt;";
    assert ReplaceLit("lt;", "&amp;", "&") == "lt;";
  }

  lemma LtStep(x: string)
    requires x == "&lt;"
    ensures ReplaceLit(x, "&lt;", "<") == "<"
  {
    assert x[..4] == "&lt;" && x[4..] == [];
  }

  /** Every later entity pattern is longer than one character. */
  lemma LongPatterns()
    ensures forall k :: 0 <= k < |LaterEntities| ==> |LaterEntities[k].0| > 1
  {
  }

  lemma LessThanKept(x: string)
    requires x == "<"
    ensures Trim(Collapse(Spaces(Tags(x)))) == "<"
  {
    assert ReplaceBr(x) == "<" by {
      assert !StartsCI(x, "<br");
    }
    ReplaceTagsShort(x, BlockTags);
    ReplaceEachShort(x, SpaceTable);
    assert Collapse(x) == "<";
    assert TrimStart(x) == x && TrimEnd(x) == x;
  }

  /** x contains pat up to ASCII case somewhere. */
  predicate ContainsCI(x: string, pat: string) {
    exists i :: 0 <= i <= |x| && StartsCI(x[i..], pat)
  }

  /** A prefix of the replaced text without a newline is the same prefix of the original. */
  lemma {:induction false} ReplaceCIPrefix(s: string, pat: string, k: nat)
    requires pat != [] && '\n' !in pat
    requires k <= |s| && k <= |ReplaceCI(s, pat, "\n")|
    ensures '\n' !in ReplaceCI(s, pat, "\n")[..k] ==> s[..k] == ReplaceCI(s, pat, "\n")[..k]
    decreases |s|
  {
    var r := ReplaceCI(s, pat, "\n");
    if |s| >= |pat| && k > 0 {
      if StartsCI(s, pat) {
        assert r[..k][0] == '\n';
      } else {
        var t := ReplaceCI(s[1..], pat, "\n");
        assert r == [s[0]] + t;
        TakeCons(r, k);
        assert t[..k - 1] == r[..k][1..];
        ReplaceCIPrefix(s[1..], pat, k - 1);
        TakeCons(s, k);
      }
    }
  }

  lemma LowerNewline(x: string)
    requires x != [] && x[0] == '\n'
    ensures ToLower(x)[0] == '\n'
  {
  }

  /** A newline in the first |pat| characters keeps pat from starting there. */
  lemma NewlineBlocks(x: string, pat: string, j: nat)
    requires '\n' !in pat && j < |pat| <= |x| && x[j] == '\n'
    ensures !StartsCI(x, pat)
  {
    assert ToLower(x[..|pat|])[j] == '\n' != pat[j];
  }

  /** After replacing a tag by newlines no occurrence of it, in any case, is left. */
  lemma {:induction false} ReplaceCINoMatch(s: string, pat: string)
    requires pat != [] && '\n' !in pat
    ensures !ContainsCI(ReplaceCI(s, pat, "\n"), pat)
    decreases |s|
  {
    var r := ReplaceCI(s, pat, "\n");
    if |s| < |pat| {
      forall i | 0 <= i <= |r| ensures !StartsCI(r[i..], pat) {
      }
    } else if StartsCI(s, pat) {
      ReplaceCINoMatch(s[|pat|..], pat);
      NoMatchAfterHit(s, pat);
    } else {
      ReplaceCINoMatch(s[1..], pat);
      NoMatchAfterMiss(s, pat);
    }
  }

  lemma NoMatchAfterHit(s: string, pat: string)
    requires pat != [] && '\n' !in pat && |s| >= |pat| && StartsCI(s, pat)
    requires !ContainsCI(ReplaceCI(s[|pat|..], pat, "\n"), pat)
    ensures !ContainsCI(ReplaceCI(s, pat, "\n"), pat)
  {
    var r := ReplaceCI(s, pat, "\n");
    var t := ReplaceCI(s[|pat|..], pat, "\n");
    assert r == "\n" + t;
    forall i | 0 <= i <= |r| ensures !StartsCI(r[i..], pat) {
      if i == 0 {
        if |pat| <= |r| {
          NewlineBlocks(r, pat, 0);
        }
      } else {
        assert r[i..] == t[i - 1..];
      }
    }
  }

  lemma NoMatchAfterMiss(s: string, pat: string)
    requires pat != [] && '\n' !in pat && |s| >= |pat| && !StartsCI(s, pat)
    requires !ContainsCI(ReplaceCI(s[1..], pat, "\n"), pat)
    ensures !ContainsCI(ReplaceCI(s, pat, "\n"), pat)
  {
    var r := ReplaceCI(s, pat, "\n");
    var t := ReplaceCI(s[1..], pat, "\n");
    assert r == [s[0]] + t;
    forall i | 0 <= i <= |r| ensures !StartsCI(r[i..], pat) {
      if i == 0 {
        if |pat| <= |r| {
          NoMatchAtHead(s, pat);
        }
      } else {
        assert r[i..] == t[i - 1..];
      }
    }
  }

  lemma NoMatchAtHead(s: string, pat: string)
    requires pat != [] && '\n' !in pat && |s| >= |pat| && !StartsCI(s, pat)
    requires |pat| <= |ReplaceCI(s, pat, "\n")|
    ensures !StartsCI(ReplaceCI(s, pat, "\n"), pat)
  {
    var r := ReplaceCI(s, pat, "\n");
    var t := ReplaceCI(s[1..], pat, "\n");
    assert r == [s[0]] + t;
    var p := r[..|pat|];
    match IndexOf(p, '\n')
    case Some(j) =>
      NewlineBlocks(r, pat, j);
    case None =>
      TakeCons(r, |pat|);
      assert t[..|pat| - 1] == p[1..];
      ReplaceCIPrefix(s[1..], pat, |pat| - 1);
      TakeCons(s, |pat|);
      assert s[..|pat|] == p;
  }

  /** The block tags leave no trace: none of <p>, </p>, <div>, </div> survives its own stage, in any case. */
  lemma BlockTagsGone(s: string, k: nat)
    requires k < |BlockTags|
    ensures !ContainsCI(ReplaceCI(s, BlockTags[k], "\n"), BlockTags[k])
  {
    ReplaceCINoMatch(s, BlockTags[k]);
  }

  /** The non-white-space characters of s, in order. */
  function NonSpace(s: string): string {
    if s == [] then [] else (if IsSpace(s[0]) then [] else [s[0]]) + NonSpace(s[1..])
  }

  lemma {:induction false} NonSpaceAppend(a: string, b: string)
    ensures NonSpace(a + b) == NonSpace(a) + NonSpace(b)
    decreases |a|
  {
    if a != [] {
      NonSpaceAppend(a[1..], b);
      assert (a + b)[0] == a[0];
      assert (a + b)[1..] == a[1..] + b;
    } else {
      assert a + b == b;
    }
  }

  /** Collapsing newline runs changes only white space, and never lengthens the text. */
  lemma {:induction false} CollapseKeepsText(s: string)
    ensures NonSpace(Collapse(s)) == NonSpace(s)
    ensures |Collapse(s)| <= |s|
    decreases |s|
  {
    if s != [] {
      var n := CollapseLength(s);
      if n > 0 {
        CollapseKeepsText(s[n..]);
        CollapseRunStep(s, n);
      } else {
        CollapseKeepsText(s[1..]);
        CollapseCharStep(s);
      }
    }
  }

  lemma CollapseRunStep(s: string, n: nat)
    requires s != [] && n == CollapseLength(s) > 0
    requires NonSpace(Collapse(s[n..])) == NonSpace(s[n..]) && |Collapse(s[n..])| <= |s[n..]|
    ensures NonSpace(Collapse(s)) == NonSpace(s) && |Collapse(s)| <= |s|
  {
    var nl := "\n\n";
    assert Collapse(s) == nl + Collapse(s[n..]);
    NonSpaceDropSpaces(nl + Collapse(s[n..]), 2);
    DropAppend(nl, Collapse(s[n..]));
    NonSpaceDropSpaces(s, n);
  }

  /** Leading white space does not count. */
  lemma {:induction false} NonSpaceDropSpaces(s: string, n: nat)
    requires n <= |s| && forall i :: 0 <= i < n ==> IsSpace(s[i])
    ensures NonSpace(s) == NonSpace(s[n..])
    decreases n
  {
    if n > 0 {
      assert IsSpace(s[0]);
      NonSpaceDropSpaces(s[1..], n - 1);
      assert s[1..][n - 1..] == s[n..];
    }
  }

  lemma CollapseCharStep(s: string)
    requires s != [] && CollapseLength(s) == 0
    requires NonSpace(Collapse(s[1..])) == NonSpace(s[1..]) && |Collapse(s[1..])| <= |s[1..]|
    ensures NonSpace(Collapse(s)) == NonSpace(s) && |Collapse(s)| <= |s|
  {
    assert Collapse(s) == [s[0]] + Collapse(s[1..]);
    NonSpaceAppend([s[0]], Collapse(s[1..]));
    NonSpaceAppend([s[0]], s[1..]);
    assert s == [s[0]] + s[1..];
  }
}
