/**
 * The site header: the content pages fetched from the admin API are
 * grouped into dropdown sections by their lower-cased header, the budget
 * page is kept from anonymous visitors, and each page link is resolved to
 * an address and a target.
 */
module Header {
  import opened Util

  /** A content page as the header lists it; an empty link means the page has none. */
  datatype Page = Page(id: string, name: string, header: string, link: string)

  /** The staff groups of the members dropdown. */
  const Groups: seq<string> := ["Senate", "Staff", "CollegeStaff", "Software"]

  /** The sections the header always has, even when empty. */
  const DefaultSections: seq<string> := ["about", "members", "resources", "pressroom", "elections"]

  /** `page.header.toLowerCase()`. */
  function HeaderKey(p: Page): string { ToLower(p.header) }

  /** Anonymous visitors do not get the page named "Budget". */
  function VisiblePages(data: seq<Page>, loggedIn: bool): (r: seq<Page>)
    ensures loggedIn ==> r == data
    ensures !loggedIn ==> forall p :: p in r <==> p in data && p.name != "Budget"
  {
    if loggedIn then data else WithoutBudget(data)
  }

  function WithoutBudget(data: seq<Page>): (r: seq<Page>)
    ensures forall p :: p in r <==> p in data && p.name != "Budget"
  {
    if data == [] then [] else (if data[0].name != "Budget" then [data[0]] else []) + WithoutBudget(data[1..])
  }

  /** The default sections, each empty. */
  function EmptySections(): (m: map<string, seq<Page>>)
    ensures forall k :: k in m <==> k in DefaultSections
    ensures forall k :: k in m ==> m[k] == []
  {
    map k | k in DefaultSections :: []
  }

  /** m holds the default sections and the pages of `done`, each under its lower-cased header, in order. */
  ghost predicate Filed(m: map<string, seq<Page>>, done: seq<Page>) {
    && (forall k :: k in m <==> k in DefaultSections || exists p :: p in done && HeaderKey(p) == k)
    && (forall k :: k in m ==> m[k] == Having(done, HeaderKey, k))
  }

  /** `pagesByHeader[key].push(page)`, creating the section when it is missing. */
  function Push(m: map<string, seq<Page>>, p: Page): (r: map<string, seq<Page>>)
    ensures r.Keys == m.Keys + {HeaderKey(p)}
  {
    var key := HeaderKey(p);
    m[key := (if key in m then m[key] else []) + [p]]
  }

  lemma FileStep(m: map<string, seq<Page>>, done: seq<Page>, p: Page)
    requires Filed(m, done)
    ensures Filed(Push(m, p), done + [p])
  {
    HavingSnoc(done, HeaderKey, p);
    var r := Push(m, p);
    forall k ensures k in r <==> k in DefaultSections || exists q :: q in done + [p] && HeaderKey(q) == k {
      if k != HeaderKey(p) && exists q :: q in done + [p] && HeaderKey(q) == k {
        var q :| q in done + [p] && HeaderKey(q) == k;
        assert q in done;
      }
      if k == HeaderKey(p) {
        assert p in done + [p];
      }
    }
  }

  /**
   * The `forEach` that files each page under its lower-cased header,
   * starting from the default sections and creating any other section on
   * first use.
   */
  method OrganizePages(data: seq<Page>) returns (m: map<string, seq<Page>>)
    ensures forall k :: k in m <==> k in DefaultSections || exists p :: p in data && HeaderKey(p) == k
    ensures forall k :: k in m ==> m[k] == Having(data, HeaderKey, k)
  {
    m := EmptySections();
    var i := 0;
    while i < |data|
      invariant 0 <= i <= |data|
      invariant Filed(m, data[..i])
    {
      FileStep(m, data[..i], data[i]);
      m := Push(m, data[i]);
      assert data[..i + 1] == data[..i] + [data[i]];
      i := i + 1;
    }
    assert data[..i] == data;
  }

  /** The fetch effect: the visible pages, organised; an anonymous visitor's sections never hold "Budget". */
  method FetchPages(data: seq<Page>, loggedIn: bool) returns (m: map<string, seq<Page>>)
    ensures forall k :: k in DefaultSections ==> k in m
    ensures forall k :: k in m ==> m[k] == Having(VisiblePages(data, loggedIn), HeaderKey, k)
    ensures !loggedIn ==> forall k, p :: k in m && p in m[k] ==> p.name != "Budget"
  {
    m := OrganizePages(VisiblePages(data, loggedIn));
  }

  // =====================================================================
  // The pages fetch against the pages route as written
  // =====================================================================

  /** A page record as a response carries it: a field the response leaves out is None. */
  datatype Fetched = Fetched(id: string, name: string, header: Option<string>, link: Option<string>)

  /** What GET /api/admin/pages sends for a stored page: its projection "id name" keeps no header and no link. */
  function Listed(p: Page): (f: Fetched)
    ensures f.id == p.id && f.name == p.name && f.header.None? && f.link.None?
  {
    Fetched(p.id, p.name, None, None)
  }

  function ListedAll(pages: seq<Page>): (r: seq<Fetched>)
    ensures |r| == |pages| && forall i :: 0 <= i < |pages| ==> r[i] == Listed(pages[i])
  {
    seq(|pages|, i requires 0 <= i < |pages| => Listed(pages[i]))
  }

  /** The budget filter on the fetched records. */
  function VisibleFetched(data: seq<Fetched>, loggedIn: bool): (r: seq<Fetched>)
    ensures forall f :: f in r <==> f in data && (loggedIn || f.name != "Budget")
  {
    if data == [] then []
    else (if loggedIn || data[0].name != "Budget" then [data[0]] else []) + VisibleFetched(data[1..], loggedIn)
  }

  /** A fetched record with a header as the header reads it; an absent link reads as none. */
  function AsPage(f: Fetched): Page
    requires f.header.Some?
  {
    Page(f.id, f.name, f.header.value, if f.link.Some? then f.link.value else "")
  }

  function AsPages(data: seq<Fetched>): (r: seq<Page>)
    requires forall f :: f in data ==> f.header.Some?
    ensures |r| == |data| && forall i :: 0 <= i < |data| ==> r[i] == AsPage(data[i])
  {
    seq(|data|, i requires 0 <= i < |data| => AsPage(data[i]))
  }

  /**
   * The fetch effect on the records the response holds. The sections are
   * built in a local object and set only at the end, so when
   * `page.header.toLowerCase()` throws on a visible record without a
   * header the catch leaves no sections to set (None); otherwise the
   * sections are those of FetchPages.
   */
  method FetchPagesAsWritten(data: seq<Fetched>, loggedIn: bool) returns (r: Option<map<string, seq<Page>>>)
    ensures r.None? <==> exists f :: f in VisibleFetched(data, loggedIn) && f.header.None?
    ensures r.Some? ==> forall k :: k in DefaultSections ==> k in r.value
    ensures r.Some? ==> forall k :: k in r.value ==> r.value[k] == Having(AsPages(VisibleFetched(data, loggedIn)), HeaderKey, k)
  {
    var visible := VisibleFetched(data, loggedIn);
    if exists f :: f in visible && f.header.None? {
      return None;
    }
    var m := OrganizePages(AsPages(visible));
    r := Some(m);
  }

  /**
   * Against the pages route as written the fetch always throws once the
   * user may see some stored page: every listed record lacks its header.
   */
  lemma ListedPagesThrow(pages: seq<Page>, loggedIn: bool)
    ensures (exists f :: f in VisibleFetched(ListedAll(pages), loggedIn) && f.header.None?)
        <==> exists p :: p in pages && (loggedIn || p.name != "Budget")
  {
    var data := ListedAll(pages);
    if exists p :: p in pages && (loggedIn || p.name != "Budget") {
      var p :| p in pages && (loggedIn || p.name != "Budget");
      var i :| 0 <= i < |pages| && pages[i] == p;
      assert data[i] in data;
    }
  }

  // =====================================================================
  // Links
  // =====================================================================

  /** The address of a page link: its own link when it has one, else /pages/<section>/<id>. */
  function Href(p: Page, section: string): (r: string)
    ensures p.link != "" ==> r == p.link
    ensures p.link == "" ==> r == "/pages/" + ToLower(section) + "/" + p.id
  {
    if p.link != "" then p.link else "/pages/" + ToLower(section) + "/" + p.id
  }

  /** A link opens in a new tab only when it starts with "http". */
  function Target(p: Page): (r: string)
    ensures r == "_blank" <==> p.link != "" && StartsWith(p.link, "http")
    ensures r == "_blank" || r == "_self"
  {
    if p.link != "" && StartsWith(p.link, "http") then "_blank" else "_self"
  }

  /** A page opened in a new tab goes to its own external link, never to a page of the site. */
  lemma NewTabIsExternal(p: Page, section: string)
    requires Target(p) == "_blank"
    ensures Href(p, section) == p.link && StartsWith(Href(p, section), "http")
  {
  }

  /** What a section's dropdown shows. */
  datatype SectionView = LoadingPages | Links(links: seq<(string, string, string)>)

  function LinksOf(pages: seq<Page>, section: string): (r: seq<(string, string, string)>)
    ensures |r| == |pages|
    ensures forall i :: 0 <= i < |pages| ==> r[i] == (Href(pages[i], section), Target(pages[i]), pages[i].name)
  {
    if pages == [] then [] else [(Href(pages[0], section), Target(pages[0]), pages[0].name)] + LinksOf(pages[1..], section)
  }

  /** `renderSectionLinks`: one link per page of the lower-cased section, none for an unknown one. */
  function RenderSection(pagesMap: map<string, seq<Page>>, section: string, loading: bool): (v: SectionView)
    ensures loading <==> v == LoadingPages
    ensures !loading && ToLower(section) !in pagesMap ==> v == Links([])
    ensures !loading && ToLower(section) in pagesMap ==> v == Links(LinksOf(pagesMap[ToLower(section)], section))
  {
    if loading then LoadingPages
    else Links(LinksOf(if ToLower(section) in pagesMap then pagesMap[ToLower(section)] else [], section))
  }

  // =====================================================================
  // Group labels
  // =====================================================================

  /** `group.replace(/([a-z])([A-Z])/g, "$1 $2")`: a space at each lower-to-upper boundary. */
  function SpaceWords(s: string): (r: string)
    ensures RemoveSpaces(r) == RemoveSpaces(s)
    decreases |s|
  {
    if |s| >= 2 && IsLower(s[0]) && IsUpper(s[1]) then
      RemoveSpacesAppend([s[0], ' ', s[1]], SpaceWords(s[2..]));
      RemoveSpacesAppend([s[0], s[1]], s[2..]);
      assert s == [s[0], s[1]] + s[2..];
      [s[0], ' ', s[1]] + SpaceWords(s[2..])
    else if s == [] then []
    else
      RemoveSpacesAppend([s[0]], SpaceWords(s[1..]));
      RemoveSpacesAppend([s[0]], s[1..]);
      assert s == [s[0]] + s[1..];
      [s[0]] + SpaceWords(s[1..])
  }

  /** After the replacement no lower-case letter is directly followed by an upper-case one. */
  lemma {:induction false} SpaceWordsSeparates(s: string)
    ensures var r := SpaceWords(s);
      forall i :: 0 <= i < |r| - 1 ==> !(IsLower(r[i]) && IsUpper(r[i + 1]))
    ensures |s| > 0 ==> |SpaceWords(s)| > 0 && SpaceWords(s)[0] == s[0]
    decreases |s|
  {
    if |s| >= 2 && IsLower(s[0]) && IsUpper(s[1]) {
      SpaceWordsSeparates(s[2..]);
    } else if s != [] {
      SpaceWordsSeparates(s[1..]);
      var t := SpaceWords(s[1..]);
      if |s| >= 2 {
        assert t[0] == s[1];
      }
    }
  }

  /** No lower-case letter of s is directly followed by an upper-case one. */
  predicate NoBoundary(s: string) {
    forall i :: 0 <= i < |s| - 1 ==> !(IsLower(s[i]) && IsUpper(s[i + 1]))
  }

  /** A string without a boundary is left as it is. */
  lemma {:induction false} SpaceWordsIdentity(s: string)
    requires NoBoundary(s)
    ensures SpaceWords(s) == s
    decreases |s|
  {
    if s != [] {
      SpaceWordsIdentity(s[1..]);
    }
  }

  /**
   * Two words run together at one boundary are split by one space: a label
   * such as "CollegeStaff" reads "College Staff".
   */
  lemma {:induction false} SpaceWordsJoin(a: string, b: string)
    requires NoBoundary(a) && NoBoundary(b)
    requires a != [] && IsLower(a[|a| - 1]) && b != [] && IsUpper(b[0])
    ensures SpaceWords(a + b) == a + " " + b
    decreases |a|
  {
    if |a| == 1 {
      SpaceWordsJoinLast(a, b);
    } else {
      NoBoundaryTail(a);
      SpaceWordsJoin(a[1..], b);
      SpaceWordsJoinStep(a, b);
    }
  }

  lemma NoBoundaryTail(s: string)
    requires s != [] && NoBoundary(s)
    ensures NoBoundary(s[1..])
  {
    forall i | 0 <= i < |s[1..]| - 1 ensures !(IsLower(s[1..][i]) && IsUpper(s[1..][i + 1])) {
      assert s[1..][i] == s[i + 1] && s[1..][i + 1] == s[i + 2];
    }
  }

  lemma SpaceWordsJoinLast(a: string, b: string)
    requires |a| == 1 && IsLower(a[0]) && b != [] && IsUpper(b[0]) && NoBoundary(b)
    ensures SpaceWords(a + b) == a + " " + b
  {
    var c := a + b;
    assert c == [a[0], b[0]] + b[1..];
    NoBoundaryTail(b);
    SpaceWordsIdentity(b[1..]);
    assert SpaceWords(c) == [a[0], ' ', b[0]] + b[1..];
  }

  lemma SpaceWordsJoinStep(a: string, b: string)
    requires |a| >= 2 && NoBoundary(a)
    requires SpaceWords(a[1..] + b) == a[1..] + " " + b
    ensures SpaceWords(a + b) == a + " " + b
  {
    var c := a + b;
    ConsAppend(a, b);
    assert c[1] == a[1];
    assert !(IsLower(a[0]) && IsUpper(a[1]));
    assert SpaceWords(c) == [a[0]] + SpaceWords(c[1..]);
    assert [a[0]] + (a[1..] + " " + b) == a + " " + b;
  }

  // =====================================================================
  // Header state
  // =====================================================================

  class HeaderState {
    var pagesMap: map<string, seq<Page>>
    var openDropdown: Option<string>
    var loadingPages: bool
    var isMobileMenuOpen: bool

    /** Every default section empty, no dropdown open, pages loading. */
    constructor ()
      ensures pagesMap == EmptySections() && openDropdown == None && loadingPages && !isMobileMenuOpen
    {
      pagesMap := EmptySections();
      openDropdown := None;
      loadingPages := true;
      isMobileMenuOpen := false;
    }

    /** The fetched pages are filed into sections and loading ends. */
    method PagesLoaded(data: seq<Page>, loggedIn: bool)
      modifies this
      ensures forall k :: k in DefaultSections ==> k in pagesMap
      ensures forall k :: k in pagesMap ==> pagesMap[k] == Having(VisiblePages(data, loggedIn), HeaderKey, k)
      ensures !loadingPages && openDropdown == old(openDropdown) && isMobileMenuOpen == old(isMobileMenuOpen)
    {
      pagesMap := FetchPages(data, loggedIn);
      loadingPages := false;
    }

    /**
     * The fetch effect on the records the response holds: the sections are
     * replaced only when no visible record lacks its header, and loading
     * ends either way.
     */
    method PagesLoadedAsWritten(data: seq<Fetched>, loggedIn: bool)
      modifies this
      ensures (exists f :: f in VisibleFetched(data, loggedIn) && f.header.None?) ==> pagesMap == old(pagesMap)
      ensures (forall f :: f in VisibleFetched(data, loggedIn) ==> f.header.Some?) ==>
        && (forall k :: k in DefaultSections ==> k in pagesMap)
        && (forall k :: k in pagesMap ==> pagesMap[k] == Having(AsPages(VisibleFetched(data, loggedIn)), HeaderKey, k))
      ensures !loadingPages && openDropdown == old(openDropdown) && isMobileMenuOpen == old(isMobileMenuOpen)
    {
      var r := FetchPagesAsWritten(data, loggedIn);
      if r.Some? {
        pagesMap := r.value;
      }
      loadingPages := false;
    }

    /** `handleDropdownClick`: the open dropdown closes, any other opens. */
    method HandleDropdownClick(name: string)
      modifies this
      ensures old(openDropdown) == Some(name) ==> openDropdown == None
      ensures old(openDropdown) != Some(name) ==> openDropdown == Some(name)
      ensures pagesMap == old(pagesMap) && loadingPages == old(loadingPages) && isMobileMenuOpen == old(isMobileMenuOpen)
    {
      openDropdown := if openDropdown == Some(name) then None else Some(name);
    }

    /** A click outside every dropdown closes the open one. */
    method HandleClickOutside(insideDropdown: bool)
      modifies this
      ensures openDropdown == (if old(openDropdown).Some? && !insideDropdown then None else old(openDropdown))
      ensures pagesMap == old(pagesMap) && loadingPages == old(loadingPages) && isMobileMenuOpen == old(isMobileMenuOpen)
    {
      if openDropdown.Some? && !insideDropdown {
        openDropdown := None;
      }
    }
  }
}
