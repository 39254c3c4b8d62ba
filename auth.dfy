/**
 * The backend's access decisions (the isAuthenticated and isAdmin
 * middleware) and the SAML auth routes' session bookkeeping, including
 * the get-or-create of the user record behind /current_user.
 */
module AuthMiddleware {
  import opened Util

  /** The user stored in the session at SAML consume time. */
  datatype SessionUser = SessionUser(id: string, email: string, firstName: string, lastName: string, sessionIndex: string, nameID: string)

  /** A stored user record. */
  datatype SamlUser = SamlUser(id: string, email: string, firstName: string, lastName: string, isAdmin: bool)

  /** The middleware either calls next or ends the request with a status. */
  datatype Decision = Next | Reject(status: int)

  /** `SAMLUser.findOne({ id })`: the first record with that id. */
  function FindById(users: seq<SamlUser>, id: string): (r: Option<nat>)
    ensures r.Some? ==> r.value < |users| && users[r.value].id == id
    ensures r.Some? ==> forall j :: 0 <= j < r.value ==> users[j].id != id
    ensures r.None? <==> forall j :: 0 <= j < |users| ==> users[j].id != id
  {
    if users == [] then None
    else if users[0].id == id then Some(0)
    else match FindById(users[1..], id)
      case None => None
      case Some(k) => Some(k + 1)
  }

  /** isAuthenticated: 401 exactly when the session has no user. */
  function IsAuthenticated(user: Option<SessionUser>): (d: Decision)
    ensures d.Next? <==> user.Some?
    ensures d.Reject? ==> d.status == 401
  {
    if user.None? then Reject(401) else Next
  }

  /** The record isAdmin looks up for a session user: found, absent, or the lookup failed. */
  datatype Lookup = Found(record: SamlUser) | Absent | LookupFailed

  function LookupById(users: seq<SamlUser>, id: string, fails: bool): (l: Lookup)
    ensures l.Found? ==> l.record in users && l.record.id == id
    ensures l.Absent? <==> !fails && forall u :: u in users ==> u.id != id
  {
    if fails then LookupFailed
    else match FindById(users, id)
      case None => Absent
      case Some(k) => Found(users[k])
  }

  /** isAdmin, in order: no session user 401; no record or not admin 403; a failed lookup 500. */
  function IsAdmin(user: Option<SessionUser>, lookup: Lookup): (d: Decision)
    ensures d == Reject(401) <==> user.None?
    ensures d == Reject(403) <==> user.Some? && (lookup.Absent? || (lookup.Found? && !lookup.record.isAdmin))
    ensures d == Reject(500) <==> user.Some? && lookup.LookupFailed?
    ensures d.Next? <==> user.Some? && lookup.Found? && lookup.record.isAdmin
  {
    if user.None? then Reject(401)
    else match lookup
      case LookupFailed => Reject(500)
      case Absent => Reject(403)
      case Found(record) => if !record.isAdmin then Reject(403) else Next
  }

  /** Whoever passes isAdmin passes isAuthenticated. */
  lemma AdminIsAuthenticated(user: Option<SessionUser>, users: seq<SamlUser>, fails: bool)
    requires user.Some?
    ensures IsAdmin(user, LookupById(users, user.value.id, fails)).Next? ==>
      IsAuthenticated(user).Next? && exists u :: u in users && u.id == user.value.id && u.isAdmin
  {
  }

  /** Only the first record with the session's id is consulted: a later admin record with the same id does not help. */
  lemma FirstRecordDecides(user: SessionUser, users: seq<SamlUser>, k: nat)
    requires k < |users| && users[k].id == user.id && !users[k].isAdmin
    requires forall j :: 0 <= j < k ==> users[j].id != user.id
    ensures IsAdmin(Some(user), LookupById(users, user.id, false)) == Reject(403)
  {
    assert FindById(users, user.id) == Some(k);
  }
}

module AuthRoutes {
  import opened Util
  import opened AuthMiddleware

  datatype Reply = Status(code: int) | Redirect(to: string) | UserReply(user: SamlUser)

  const ObjectIdentifier := "http://schemas.microsoft.com/identity/claims/objectidentifier"
  const ClaimsBase := "http://schemas.xmlsoap.org/ws/2005/05/identity/claims/"

  /** What the SAML response parser extracts; a missing attribute reads as "". */
  datatype Extract = Extract(attributes: map<string, string>, sessionIndex: string, nameID: string)

  function Attr(attributes: map<string, string>, key: string): string {
    if key in attributes then attributes[key] else ""
  }

  /** The session user built from the response attributes. */
  function UserOf(e: Extract): (u: SessionUser)
    ensures u.id == Attr(e.attributes, ObjectIdentifier)
    ensures u.email == Attr(e.attributes, ClaimsBase + "emailaddress")
    ensures u.firstName == Attr(e.attributes, ClaimsBase + "givenname")
    ensures u.lastName == Attr(e.attributes, ClaimsBase + "surname")
    ensures u.sessionIndex == e.sessionIndex && u.nameID == e.nameID
  {
    SessionUser(Attr(e.attributes, ObjectIdentifier), Attr(e.attributes, ClaimsBase + "emailaddress"),
      Attr(e.attributes, ClaimsBase + "givenname"), Attr(e.attributes, ClaimsBase + "surname"), e.sessionIndex, e.nameID)
  }

  /** The session fields the routes write. */
  class Session {
    var user: Option<SessionUser>
    var authRequest: Option<string>

    constructor ()
      ensures user.None? && authRequest.None?
    {
      user := None;
      authRequest := None;
    }

    /** GET /login/saml: with SAML set up, the request id is stored before redirecting to the identity provider. */
    method Login(samlReady: bool, requestId: string, context: string) returns (reply: Reply)
      modifies this
      ensures !samlReady ==> reply == Status(500) && user == old(user) && authRequest == old(authRequest)
      ensures samlReady ==> reply == Redirect(context) && authRequest == Some(requestId) && user == old(user)
    {
      if !samlReady {
        return Status(500);
      }
      authRequest := Some(requestId);
      reply := Redirect(context);
    }

    /**
     * POST /saml/consume: a parsed response stores its user in the session;
     * the reply is the frontend redirect unless saving the session fails.
     */
    method Consume(samlReady: bool, parsed: Option<Extract>, sessionSaved: bool, frontend: string) returns (reply: Reply)
      modifies this
      ensures !samlReady || parsed.None? ==> reply == Status(500) && user == old(user)
      ensures samlReady && parsed.Some? ==> user == Some(UserOf(parsed.value))
      ensures samlReady && parsed.Some? ==> reply == (if sessionSaved then Redirect(frontend) else Status(500))
      ensures authRequest == old(authRequest)
    {
      if !samlReady || parsed.None? {
        return Status(500);
      }
      user := Some(UserOf(parsed.value));
      reply := if sessionSaved then Redirect(frontend) else Status(500);
    }

    /** GET /logout/saml: 500 before SAML is set up; without a session user just back home; otherwise the session is destroyed. */
    method Logout(samlReady: bool, target: string) returns (reply: Reply)
      modifies this
      ensures !samlReady ==> reply == Status(500) && user == old(user) && authRequest == old(authRequest)
      ensures samlReady && old(user).None? ==> reply == Redirect("/") && user == old(user) && authRequest == old(authRequest)
      ensures samlReady && old(user).Some? ==> reply == Redirect(target) && user.None? && authRequest.None?
    {
      if !samlReady {
        return Status(500);
      }
      if user.None? {
        return Redirect("/");
      }
      user := None;
      authRequest := None;
      reply := Redirect(target);
    }
  }

  /** `SAMLUser.findOne({ email })`: the first record with that email. */
  function FindByEmail(users: seq<SamlUser>, email: string): (r: Option<nat>)
    ensures r.Some? ==> r.value < |users| && users[r.value].email == email
    ensures r.None? <==> forall j :: 0 <= j < |users| ==> users[j].email != email
  {
    if users == [] then None
    else if users[0].email == email then Some(0)
    else match FindByEmail(users[1..], email)
      case None => None
      case Some(k) => Some(k + 1)
  }

  /** The schema: email is unique. */
  predicate UniqueEmails(users: seq<SamlUser>) {
    forall i, j :: 0 <= i < j < |users| ==> users[i].email != users[j].email
  }

  /** A new record fails validation when a required string is empty. */
  predicate Insertable(u: SamlUser) {
    u.id != "" && u.email != "" && u.firstName != "" && u.lastName != ""
  }

  /** The record /current_user creates for a session user. */
  function NewUser(s: SessionUser): (u: SamlUser)
    ensures u.id == s.id && u.email == s.email && u.firstName == s.firstName && u.lastName == s.lastName && !u.isAdmin
  {
    SamlUser(s.id, s.email, s.firstName, s.lastName, false)
  }

  /** The user table behind /current_user. */
  class UserTable {
    var users: seq<SamlUser>

    ghost predicate Valid()
      reads this
    {
      UniqueEmails(users)
    }

    constructor ()
      ensures Valid() && users == []
    {
      users := [];
    }

    /**
     * GET /current_user: 401 without a session user; the record with the
     * session's id, else the one with its email; a new non-admin record is
     * inserted only when both miss. A save that fails (a required field
     * empty) ends in 500; a duplicate key cannot arise here, since the
     * email lookup just missed, so the re-lookup of that branch is not
     * reached.
     */
    method CurrentUser(session: Option<SessionUser>) returns (reply: Reply)
      requires Valid()
      modifies this
      ensures Valid()
      ensures session.None? ==> reply == Status(401) && users == old(users)
      ensures session.Some? && FindById(old(users), session.value.id).Some? ==>
        reply == UserReply(old(users)[FindById(old(users), session.value.id).value]) && users == old(users)
      ensures session.Some? && FindById(old(users), session.value.id).None? && FindByEmail(old(users), session.value.email).Some? ==>
        reply == UserReply(old(users)[FindByEmail(old(users), session.value.email).value]) && users == old(users)
      ensures session.Some? && FindById(old(users), session.value.id).None? && FindByEmail(old(users), session.value.email).None? ==>
        if Insertable(NewUser(session.value)) then reply == UserReply(NewUser(session.value)) && users == old(users) + [NewUser(session.value)]
        else reply == Status(500) && users == old(users)
    {
      if session.None? {
        return Status(401);
      }
      var s := session.value;
      var byId := FindById(users, s.id);
      if byId.Some? {
        return UserReply(users[byId.value]);
      }
      var byEmail := FindByEmail(users, s.email);
      if byEmail.Some? {
        return UserReply(users[byEmail.value]);
      }
      var userData := NewUser(s);
      if !Insertable(userData) {
        return Status(500);
      }
      users := users + [userData];
      reply := UserReply(userData);
    }
  }

  /** Calling /current_user twice for the same session never creates a second record. */
  lemma CurrentUserCreatesOnce(users: seq<SamlUser>, s: SessionUser)
    requires FindById(users, s.id).None? && FindByEmail(users, s.email).None?
    ensures FindById(users + [NewUser(s)], s.id).Some?
    ensures FindByEmail(users + [NewUser(s)], s.email).Some?
    ensures UniqueEmails(users) ==> UniqueEmails(users + [NewUser(s)])
  {
    assert (users + [NewUser(s)])[|users|] == NewUser(s);
  }
}

module FrontendMiddleware {
  import opened Util

  /** Paths that need no session. */
  predicate IsPublicPath(path: string) {
    path == "/" || StartsWith(path, "/api/auth/") || Contains(path, "/login/saml") || Contains(path, "/logout/saml")
  }

  /** A session is recognised by either cookie name. */
  predicate HasSessionCookie(cookies: set<string>) {
    "connect.sid" in cookies || "your_session_cookie_name" in cookies
  }

  /**
   * The lookahead of `config.matcher`: what follows the leading slash starts
   * with one of the excluded names. The `.` of "favicon.ico" is a regular
   * expression wildcard, so it stands for any one character.
   */
  predicate Excluded(rest: string) {
    || StartsWith(rest, "_next/static")
    || StartsWith(rest, "_next/image")
    || (|rest| >= 11 && rest[..7] == "favicon" && rest[8..11] == "ico")
    || StartsWith(rest, "logo")
    || StartsWith(rest, "public")
  }

  /** `config.matcher`: the middleware runs only on a path "/" + rest whose rest is not excluded. */
  predicate Matched(path: string) {
    path != [] && path[0] == '/' && !Excluded(path[1..])
  }

  datatype Outcome = RedirectHome | PassThrough

  /** The request goes on unless the middleware runs on it and it is a protected path without a session. */
  function Decide(path: string, cookies: set<string>): (o: Outcome)
    ensures o == RedirectHome <==> Matched(path) && !IsPublicPath(path) && !HasSessionCookie(cookies)
  {
    if !Matched(path) then PassThrough
    else if !IsPublicPath(path) && !HasSessionCookie(cookies) then RedirectHome
    else PassThrough
  }

  /** Static assets are served to visitors without a session: the matcher keeps the middleware off them. */
  lemma {:induction false} AssetsPass(rest: string, cookies: set<string>)
    ensures Decide("/_next/static/" + rest, cookies) == PassThrough
    ensures Decide("/_next/image" + rest, cookies) == PassThrough
    ensures Decide("/logo" + rest, cookies) == PassThrough
    ensures Decide("/public" + rest, cookies) == PassThrough
    ensures Decide("/favicon.ico" + rest, cookies) == PassThrough
  {
    assert ("/_next/static/" + rest)[1..][..|"_next/static"|] == "_next/static";
    assert ("/_next/image" + rest)[1..][..|"_next/image"|] == "_next/image";
    assert ("/logo" + rest)[1..][..|"logo"|] == "logo";
    assert ("/public" + rest)[1..][..|"public"|] == "public";
    var f := ("/favicon.ico" + rest)[1..];
    assert f[..7] == "favicon" && f[8..11] == "ico";
  }

  /** A protected page is redirected home for a visitor without a session. */
  lemma ProtectedPageRedirects()
    ensures Decide("/dashboard", {}) == RedirectHome
  {
    var path := "/dashboard";
    assert path[0] == '/' && path[1..] == "dashboard";
    assert !Excluded("dashboard") by {
      var d := "dashboard";
      assert d[0] == 'd';
      assert d[..|"logo"|][0] == 'd' && d[..|"public"|][0] == 'd';
    }
    assert path[..|"/api/auth/"|][1] == 'd';
    assert !Contains(path, "/login/saml") && !Contains(path, "/logout/saml");
    assert !IsPublicPath(path);
  }

  /** More cookies never turn a pass into a redirect. */
  lemma MoreCookiesNeverRedirect(path: string, cookies: set<string>, more: set<string>)
    requires cookies <= more && Decide(path, cookies) == PassThrough
    ensures Decide(path, more) == PassThrough
  {
  }

  /** Any path extending a public SAML route is public too. */
  lemma {:induction false} SamlRoutesPublic(pre: string, post: string)
    ensures IsPublicPath(pre + "/login/saml" + post)
    ensures IsPublicPath(pre + "/logout/saml" + post)
  {
    var a := pre + "/login/saml" + post;
    assert OccursAt(a, "/login/saml", |pre|) by {
      assert a[|pre|..|pre| + |"/login/saml"|] == "/login/saml";
    }
    var b := pre + "/logout/saml" + post;
    assert OccursAt(b, "/logout/saml", |pre|) by {
      assert b[|pre|..|pre| + |"/logout/saml"|] == "/logout/saml";
    }
  }

  /** Everything under /api/auth/ is public. */
  lemma ApiAuthPublic(rest: string)
    ensures IsPublicPath("/api/auth/" + rest)
  {
    assert ("/api/auth/" + rest)[..|"/api/auth/"|] == "/api/auth/";
  }
}
