/**
 * The page store behind the two admin page routers: the current one
 * (pages with a header and either a content body or an external link)
 * and the older one (id, name, content only). Both work on the same
 * PageContent collection, whose ids are unique.
 */
module Pages {
  import opened Util

  /** A stored page; None stands for a null or absent field. */
  datatype Page = Page(id: Option<string>, name: Option<string>, header: string, content: Option<string>, link: Option<string>)

  /** A request body field is truthy when it is present and not "". */
  predicate Truthy(o: Option<string>) {
    o.Some? && o.value != ""
  }

  /** The index of the first page with the given id (`findOne({ id })`). */
  function Find(pages: seq<Page>, id: string): (r: Option<nat>)
    ensures r.Some? ==> r.value < |pages| && pages[r.value].id == Some(id)
    ensures r.Some? ==> forall j :: 0 <= j < r.value ==> pages[j].id != Some(id)
    ensures r.None? <==> forall j :: 0 <= j < |pages| ==> pages[j].id != Some(id)
  {
    if pages == [] then None
    else if pages[0].id == Some(id) then Some(0)
    else match Find(pages[1..], id)
      case None => None
      case Some(k) => Some(k + 1)
  }

  /** The unique index on id: no two stored pages share one. */
  predicate UniqueIds(pages: seq<Page>) {
    forall i, j :: 0 <= i < j < |pages| ==> pages[i].id != pages[j].id
  }

  /** Some page other than the one at index k already has id x. */
  predicate IdTakenElsewhere(pages: seq<Page>, k: int, x: Option<string>) {
    exists j :: 0 <= j < |pages| && j != k && pages[j].id == x
  }

  datatype Response = Response(status: int, page: Option<Page>)

  // =====================================================================
  // The current router (routes/admin/PagesRoutes.ts)
  // =====================================================================

  datatype CreateRequest = CreateRequest(id: Option<string>, name: Option<string>, content: Option<string>, header: Option<string>, link: Option<string>)

  const MissingFields := "id, name, and header are required, and either link or content must be provided"
  const BothLinkAndContent := "Only one of 'link' or 'content' should be provided, not both."

  /** The 400 checks of POST /, in order: required fields, then link and content exclusive. */
  function CreateError(r: CreateRequest): (e: Option<string>)
    ensures e.None? <==> Truthy(r.id) && Truthy(r.name) && Truthy(r.header) && (Truthy(r.link) != Truthy(r.content))
    ensures e == Some(MissingFields) <==>
      !Truthy(r.id) || !Truthy(r.name) || !Truthy(r.header) || (!Truthy(r.link) && !Truthy(r.content))
    ensures e == Some(BothLinkAndContent) <==>
      Truthy(r.id) && Truthy(r.name) && Truthy(r.header) && Truthy(r.link) && Truthy(r.content)
  {
    if !Truthy(r.id) || !Truthy(r.name) || !Truthy(r.header) || (!Truthy(r.link) && !Truthy(r.content)) then
      Some(MissingFields)
    else if Truthy(r.link) && Truthy(r.content) then
      Some(BothLinkAndContent)
    else None
  }

  /** The stored page: the request fields as given, an absent link or content stored as null. */
  function NewPage(r: CreateRequest): (p: Page)
    requires CreateError(r).None?
    ensures p.id == r.id && p.name == r.name && p.header == r.header.value
    ensures Truthy(p.content) != Truthy(p.link)
    ensures p.content == r.content && p.link == r.link
  {
    Page(r.id, r.name, r.header.value, r.content, r.link)
  }

  datatype UpdateRequest = UpdateRequest(newId: Option<string>, name: Option<string>, content: Option<string>, header: Option<string>, link: Option<string>)

  /** PUT /:id with none of name, content, header or link: 400. */
  predicate NothingToUpdate(r: UpdateRequest) {
    !Truthy(r.name) && !Truthy(r.content) && !Truthy(r.header) && !Truthy(r.link)
  }

  /** The page after `findOneAndUpdate` with `updateData`: only the truthy fields are set. */
  function ApplyUpdate(p: Page, r: UpdateRequest): (q: Page)
    ensures q.id == (if Truthy(r.newId) then r.newId else p.id)
    ensures q.name == (if Truthy(r.name) then r.name else p.name)
    ensures q.content == (if Truthy(r.content) then r.content else p.content)
    ensures q.link == (if Truthy(r.link) then r.link else p.link)
    ensures q.header == (if Truthy(r.header) then r.header.value else p.header)
  {
    var d := p;
    var d := if Truthy(r.newId) then d.(id := r.newId) else d;
    var d := if Truthy(r.name) then d.(name := r.name) else d;
    var d := if Truthy(r.content) then d.(content := r.content) else d;
    var d := if Truthy(r.header) then d.(header := r.header.value) else d;
    if Truthy(r.link) then d.(link := r.link) else d
  }

  /** An update with only falsy fields besides newId changes nothing but a truthy newId. */
  lemma ApplyUpdateNoFields(p: Page, r: UpdateRequest)
    requires NothingToUpdate(r)
    ensures ApplyUpdate(p, r) == (if Truthy(r.newId) then p.(id := r.newId) else p)
  {
  }

  // =====================================================================
  // The older router (routes/AdminRoutes.ts)
  // =====================================================================

  datatype LegacyCreateRequest = LegacyCreateRequest(id: Option<string>, name: Option<string>, content: Option<string>)

  /** POST / needs all of id, name and content. */
  predicate LegacyCreateOk(r: LegacyCreateRequest) {
    Truthy(r.id) && Truthy(r.name) && Truthy(r.content)
  }

  /** The schema's header default applies; no link is stored. */
  function LegacyNewPage(r: LegacyCreateRequest): (p: Page)
    ensures p.id == r.id && p.name == r.name && p.content == r.content
    ensures p.header == "about" && p.link.None?
  {
    Page(r.id, r.name, "about", r.content, None)
  }

  /** The body of the older PUT /:id; None is a field the body leaves out. */
  datatype LegacyUpdateRequest = LegacyUpdateRequest(newId: Option<string>, name: Option<string>, content: Option<string>)

  /**
   * The update document `{ id: newId, name, content }`. Mongoose 7 drops
   * the keys whose value is undefined before it sends the update, so a
   * field the body leaves out keeps its stored value; a given one, even
   * "", overwrites it.
   */
  function LegacyApplyUpdate(p: Page, r: LegacyUpdateRequest): (q: Page)
    ensures q.id == (if r.newId.Some? then r.newId else p.id)
    ensures q.name == (if r.name.Some? then r.name else p.name)
    ensures q.content == (if r.content.Some? then r.content else p.content)
    ensures q.header == p.header && q.link == p.link
  {
    var d := if r.newId.Some? then p.(id := r.newId) else p;
    var d := if r.name.Some? then d.(name := r.name) else d;
    if r.content.Some? then d.(content := r.content) else d
  }

  /** Sending the same older update twice leaves the page as the first one did. */
  lemma LegacyApplyUpdateIdempotent(p: Page, r: LegacyUpdateRequest)
    ensures LegacyApplyUpdate(LegacyApplyUpdate(p, r), r) == LegacyApplyUpdate(p, r)
  {
  }

  // =====================================================================
  // The store
  // =====================================================================

  /** Lemma: writing a page with an id nobody else has keeps the ids unique. */
  lemma {:induction false} ReplaceKeepsUnique(pages: seq<Page>, k: nat, q: Page)
    requires UniqueIds(pages) && k < |pages| && !IdTakenElsewhere(pages, k, q.id)
    ensures UniqueIds(pages[k := q])
  {
    var t := pages[k := q];
    forall i, j | 0 <= i < j < |t| ensures t[i].id != t[j].id {
      if i == k {
        assert pages[j].id != q.id;
      } else if j == k {
        assert pages[i].id != q.id;
      }
    }
  }

  /** Lemma: appending a page with a fresh id keeps the ids unique. */
  lemma AppendKeepsUnique(pages: seq<Page>, q: Page)
    requires UniqueIds(pages) && forall j :: 0 <= j < |pages| ==> pages[j].id != q.id
    ensures UniqueIds(pages + [q])
  {
  }

  /** Lemma: removing a page keeps the ids unique. */
  lemma RemoveKeepsUnique(pages: seq<Page>, k: nat)
    requires UniqueIds(pages) && k < |pages|
    ensures UniqueIds(RemoveAt(pages, k))
  {
    var r := RemoveAt(pages, k);
    forall i, j | 0 <= i < j < |r| ensures r[i].id != r[j].id {
      var a := if i < k then i else i + 1;
      var b := if j < k then j else j + 1;
      assert r[i] == pages[a] && r[j] == pages[b];
    }
  }

  class PageStore {
    var pages: seq<Page>

    ghost predicate Valid()
      reads this
    {
      UniqueIds(pages)
    }

    constructor ()
      ensures Valid() && pages == []
    {
      pages := [];
    }

    /** GET /:id: the first page with that id, or 404. */
    method Get(id: string) returns (res: Response)
      ensures Find(pages, id).None? ==> res == Response(404, None)
      ensures Find(pages, id).Some? ==> res == Response(200, Some(pages[Find(pages, id).value]))
    {
      var i := Find(pages, id);
      if i.None? {
        return Response(404, None);
      }
      res := Response(200, Some(pages[i.value]));
    }

    /**
     * POST /: 400 on a failed check; a page whose id is already stored
     * violates the unique index (500); otherwise the page is appended.
     */
    method Create(r: CreateRequest) returns (res: Response)
      requires Valid()
      modifies this
      ensures Valid()
      ensures CreateError(r).Some? ==> res.status == 400 && pages == old(pages)
      ensures CreateError(r).None? && Find(old(pages), r.id.value).Some? ==> res.status == 500 && pages == old(pages)
      ensures CreateError(r).None? && Find(old(pages), r.id.value).None? ==>
        res.status == 201 && pages == old(pages) + [NewPage(r)]
    {
      if CreateError(r).Some? {
        return Response(400, None);
      }
      if Find(pages, r.id.value).Some? {
        return Response(500, None);
      }
      AppendKeepsUnique(pages, NewPage(r));
      pages := pages + [NewPage(r)];
      res := Response(201, None);
    }

    /**
     * PUT /:id: 400 when no field is given, 404 for an unknown id, 500 when
     * the new id is another page's; otherwise only the first page with
     * that id changes.
     */
    method Update(id: string, r: UpdateRequest) returns (res: Response)
      requires Valid()
      modifies this
      ensures Valid()
      ensures NothingToUpdate(r) ==> res.status == 400 && pages == old(pages)
      ensures !NothingToUpdate(r) && Find(old(pages), id).None? ==> res.status == 404 && pages == old(pages)
      ensures !NothingToUpdate(r) && Find(old(pages), id).Some? ==>
        var k := Find(old(pages), id).value;
        var q := ApplyUpdate(old(pages)[k], r);
        if IdTakenElsewhere(old(pages), k, q.id) then res.status == 500 && pages == old(pages)
        else res == Response(200, Some(q)) && pages == old(pages)[k := q]
    {
      if NothingToUpdate(r) {
        return Response(400, None);
      }
      var i := Find(pages, id);
      if i.None? {
        return Response(404, None);
      }
      var q := ApplyUpdate(pages[i.value], r);
      if IdTakenElsewhere(pages, i.value, q.id) {
        return Response(500, None);
      }
      ReplaceKeepsUnique(pages, i.value, q);
      pages := pages[i.value := q];
      res := Response(200, Some(q));
    }

    /** DELETE /:id: 404 for an unknown id; otherwise the page is removed. */
    method Delete(id: string) returns (res: Response)
      requires Valid()
      modifies this
      ensures Valid()
      ensures Find(old(pages), id).None? ==> res == Response(404, None) && pages == old(pages)
      ensures Find(old(pages), id).Some? ==>
        res == Response(200, Some(old(pages)[Find(old(pages), id).value])) && pages == RemoveAt(old(pages), Find(old(pages), id).value)
    {
      var i := Find(pages, id);
      if i.None? {
        return Response(404, None);
      }
      res := Response(200, Some(pages[i.value]));
      RemoveKeepsUnique(pages, i.value);
      pages := RemoveAt(pages, i.value);
    }

    /** The older POST /: 400 unless id, name and content are all given. */
    method LegacyCreate(r: LegacyCreateRequest) returns (res: Response)
      requires Valid()
      modifies this
      ensures Valid()
      ensures !LegacyCreateOk(r) ==> res.status == 400 && pages == old(pages)
      ensures LegacyCreateOk(r) && Find(old(pages), r.id.value).Some? ==> res.status == 500 && pages == old(pages)
      ensures LegacyCreateOk(r) && Find(old(pages), r.id.value).None? ==>
        res.status == 201 && pages == old(pages) + [LegacyNewPage(r)]
    {
      if !LegacyCreateOk(r) {
        return Response(400, None);
      }
      if Find(pages, r.id.value).Some? {
        return Response(500, None);
      }
      AppendKeepsUnique(pages, LegacyNewPage(r));
      pages := pages + [LegacyNewPage(r)];
      res := Response(201, None);
    }

    /** The older PUT /:id: 400 unless name or content is given, then as Update with the overwriting document. */
    method LegacyUpdate(id: string, r: LegacyUpdateRequest) returns (res: Response)
      requires Valid()
      modifies this
      ensures Valid()
      ensures !Truthy(r.name) && !Truthy(r.content) ==> res.status == 400 && pages == old(pages)
      ensures (Truthy(r.name) || Truthy(r.content)) && Find(old(pages), id).None? ==> res.status == 404 && pages == old(pages)
      ensures (Truthy(r.name) || Truthy(r.content)) && Find(old(pages), id).Some? ==>
        var k := Find(old(pages), id).value;
        var q := LegacyApplyUpdate(old(pages)[k], r);
        if IdTakenElsewhere(old(pages), k, q.id) then res.status == 500 && pages == old(pages)
        else res == Response(200, Some(q)) && pages == old(pages)[k := q]
    {
      if !Truthy(r.name) && !Truthy(r.content) {
        return Response(400, None);
      }
      var i := Find(pages, id);
      if i.None? {
        return Response(404, None);
      }
      var q := LegacyApplyUpdate(pages[i.value], r);
      if IdTakenElsewhere(pages, i.value, q.id) {
        return Response(500, None);
      }
      ReplaceKeepsUnique(pages, i.value, q);
      pages := pages[i.value := q];
      res := Response(200, Some(q));
    }
  }

  /** With unique ids, the page found for an id is the only one with it. */
  lemma FindUnique(pages: seq<Page>, id: string)
    requires UniqueIds(pages) && Find(pages, id).Some?
    ensures forall j :: 0 <= j < |pages| && pages[j].id == Some(id) ==> j == Find(pages, id).value
  {
  }

  /** After a successful delete no page has that id any more. */
  lemma DeleteRemovesId(pages: seq<Page>, id: string)
    requires UniqueIds(pages) && Find(pages, id).Some?
    ensures Find(RemoveAt(pages, Find(pages, id).value), id).None?
  {
    var k := Find(pages, id).value;
    var r := RemoveAt(pages, k);
    forall j | 0 <= j < |r| ensures r[j].id != Some(id) {
      var a := if j < k then j else j + 1;
      assert r[j] == pages[a];
    }
  }
}
