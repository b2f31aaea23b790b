/**
 * The two request middlewares. `auth_middleware` lets a few path prefixes
 * through untouched; on every other path it wants an `Authorization:
 * Bearer <token>` header (section 2.1 of RFC 6750), whose token must
 * decode to claims whose subject is a user identifier, and it records that
 * identifier on the request for the handlers. `cors_middleware` overwrites
 * three Access-Control headers on every response. Checking the JWT
 * signature and expiry is a foreign call: it is the `decode` parameter.
 */
module Middleware {
  import opened Maybe
  import opened Text
  import opened Uuids
  import opened Http

  // ---------------------------------------------------------------------
  // Which paths need a principal

  /** Whether `auth_middleware` checks the request: plain prefix tests, and equality for the root. */
  predicate AuthRequired(path: string) {
    && !StartsWith(path, "/public")
    && !StartsWith(path, "/health")
    && !StartsWith(path, "/api/auth/login")
    && !StartsWith(path, "/api/auth/register")
    && path != "/"
  }

  lemma PrefixDiffers(path: string, p: string, q: string, i: nat)
    requires StartsWith(path, p) && i < |p| && i < |q| && p[i] != q[i]
    ensures !StartsWith(path, q)
  {
    assert path[i] == p[i];
  }

  /** Every calendar collection and resource path needs a principal. */
  lemma CalendarPathsNeedAuth(rest: string)
    ensures AuthRequired("/calendars/" + rest)
  {
    var path := "/calendars/" + rest;
    StartsWithAppend("/calendars/", rest);
    PrefixDiffers(path, "/calendars/", "/public", 1);
    PrefixDiffers(path, "/calendars/", "/health", 1);
    PrefixDiffers(path, "/calendars/", "/api/auth/login", 1);
    PrefixDiffers(path, "/calendars/", "/api/auth/register", 1);
    assert path[1] == 'c';
  }

  /** Every page of the web interface needs a principal, the login page included. */
  lemma WebPathsNeedAuth(rest: string)
    ensures AuthRequired("/web/" + rest)
  {
    var path := "/web/" + rest;
    StartsWithAppend("/web/", rest);
    PrefixDiffers(path, "/web/", "/public", 1);
    PrefixDiffers(path, "/web/", "/health", 1);
    PrefixDiffers(path, "/web/", "/api/auth/login", 1);
    PrefixDiffers(path, "/web/", "/api/auth/register", 1);
    assert path[1] == 'w';
  }

  /** The CalDAV discovery path needs a principal too. */
  lemma DiscoveryNeedsAuth()
    ensures AuthRequired("/.well-known/caldav")
  {
    var path := "/.well-known/caldav";
    assert StartsWith(path, "/.");
    PrefixDiffers(path, "/.", "/public", 1);
    PrefixDiffers(path, "/.", "/health", 1);
    PrefixDiffers(path, "/.", "/api/auth/login", 1);
    PrefixDiffers(path, "/.", "/api/auth/register", 1);
  }

  /** The tests are on text prefixes, not on path segments: anything that merely begins like an open path is let through. */
  lemma OpenPrefixes(rest: string)
    ensures !AuthRequired("/public" + rest)
    ensures !AuthRequired("/health" + rest)
    ensures !AuthRequired("/api/auth/login" + rest)
    ensures !AuthRequired("/api/auth/register" + rest)
    ensures !AuthRequired("/")
  {
    StartsWithAppend("/public", rest);
    StartsWithAppend("/health", rest);
    StartsWithAppend("/api/auth/login", rest);
    StartsWithAppend("/api/auth/register", rest);
  }

  // ---------------------------------------------------------------------
  // The Bearer token

  /**
   * The `Authorization` header of a request: absent, readable text, or a
   * value `HeaderValue::to_str` refuses (bytes outside visible ASCII).
   */
  datatype AuthHeader = Absent | Text(value: string) | Unreadable

  const BearerPrefix := "Bearer "

  /** `to_str().unwrap_or_default()`: an unreadable value reads as the empty string. */
  function HeaderText(h: AuthHeader): string
    requires !h.Absent?
  {
    if h.Text? then h.value else ""
  }

  /** The token after the `Bearer ` prefix; the scheme name is matched exactly, case included. */
  function BearerToken(h: AuthHeader): (r: Option<string>)
    ensures r.Some? <==> h.Text? && StartsWith(h.value, BearerPrefix)
    ensures r.Some? ==> h.value == BearerPrefix + r.value
  {
    if h.Absent? then None
    else
      var s := HeaderText(h);
      if StartsWith(s, BearerPrefix) then Some(s[|BearerPrefix|..]) else None
  }

  /** A header built from a token gives that token back. */
  lemma BearerTokenOf(token: string)
    ensures BearerToken(Text(BearerPrefix + token)) == Some(token)
  {
    var s := BearerPrefix + token;
    StartsWithAppend(BearerPrefix, token);
    assert s[|BearerPrefix|..] == token;
  }

  /** Other schemes carry no token: Basic credentials and a lower-case `bearer` are both refused. */
  lemma OtherSchemes(credentials: string)
    ensures BearerToken(Text("Basic " + credentials)).None?
    ensures BearerToken(Text("bearer " + credentials)).None?
  {
    assert ("Basic " + credentials)[0] == 'B' && ("Basic " + credentials)[1] == 'a';
    assert ("bearer " + credentials)[0] == 'b';
  }

  // ---------------------------------------------------------------------
  // The decision

  /** The JWT claims the server issues. */
  datatype Claims = Claims(sub: string, exp: nat, iat: nat)

  /** What `auth_middleware` does with a request. */
  datatype Decision =
    | Skip               // the path is open: the handler runs as it is
    | Admit(user: Uuid)  // the handler runs with this principal recorded
    | Refuse(response: Response)

  /** `auth_middleware` as a function of the path, the header and the token decoder. */
  function AuthDecision(path: string, h: AuthHeader, decode: string -> Option<Claims>): (d: Decision)
    ensures d.Skip? <==> !AuthRequired(path)
    ensures d.Refuse? ==> d.response.status == 401
    ensures AuthRequired(path) && BearerToken(h).None? ==> d == Refuse(PlainText(401, "Missing token"))
  {
    if !AuthRequired(path) then Skip
    else
      match BearerToken(h)
      case None => Refuse(PlainText(401, "Missing token"))
      case Some(token) =>
        match decode(token)
        case None => Refuse(PlainText(401, "Invalid token"))
        case Some(claims) =>
          match ParseUuid(claims.sub)
          case None => Refuse(PlainText(401, "Invalid user ID in token"))
          case Some(user) => Admit(user)
  }

  /** A principal is admitted exactly when the path is guarded, the header carries a Bearer token, it decodes, and its subject is an identifier. */
  lemma AdmitIff(path: string, h: AuthHeader, decode: string -> Option<Claims>, user: Uuid)
    ensures AuthDecision(path, h, decode) == Admit(user) <==>
      && AuthRequired(path)
      && BearerToken(h).Some?
      && decode(BearerToken(h).value).Some?
      && ParseUuid(decode(BearerToken(h).value).value.sub) == Some(user)
  {
  }

  /** The admitted principal is the token's subject, read back as an identifier. */
  lemma AdmittedSubject(path: string, token: string, decode: string -> Option<Claims>)
    requires AuthRequired(path) && decode(token).Some? && ValidUuid(Uuid(decode(token).value.sub))
    ensures AuthDecision(path, Text(BearerPrefix + token), decode) == Admit(Uuid(decode(token).value.sub))
  {
    BearerTokenOf(token);
  }

  /** A request in flight: its path, its `Authorization` header, and the principal recorded in its extensions. */
  class Request {
    const path: string
    const authorization: AuthHeader
    var principal: Option<Uuid>

    constructor (path: string, authorization: AuthHeader)
      ensures this.path == path && this.authorization == authorization && principal.None?
    {
      this.path := path;
      this.authorization := authorization;
      principal := None;
    }
  }

  /** What the middleware does next: run the inner handler on the request, or answer at once. */
  datatype Outcome = Forward | Respond(response: Response)

  /**
   * `auth_middleware`: answers at once on refusal; otherwise forwards the
   * request, having recorded the principal in it when one was admitted.
   */
  method AuthMiddleware(req: Request, decode: string -> Option<Claims>) returns (outcome: Outcome)
    modifies req
    ensures var d := AuthDecision(req.path, req.authorization, decode);
      && (d.Refuse? ==> outcome == Respond(d.response))
      && (!d.Refuse? ==> outcome == Forward)
      && req.principal == (if d.Admit? then Some(d.user) else old(req.principal))
  {
    if !AuthRequired(req.path) {
      return Forward;
    }
    var token := BearerToken(req.authorization);
    if token.None? {
      return Respond(PlainText(401, "Missing token"));
    }
    var claims := decode(token.value);
    if claims.None? {
      return Respond(PlainText(401, "Invalid token"));
    }
    var user := ParseUuid(claims.value.sub);
    if user.None? {
      return Respond(PlainText(401, "Invalid user ID in token"));
    }
    req.principal := Some(user.value);
    outcome := Forward;
  }

  // ---------------------------------------------------------------------
  // CORS

  const AllowOrigin := "access-control-allow-origin"
  const AllowMethods := "access-control-allow-methods"
  const AllowHeaders := "access-control-allow-headers"

  const AnyOrigin := "*"
  const AllowedMethods := "GET, POST, PUT, DELETE, OPTIONS, PROPFIND, REPORT, MKCOL"
  const AllowedHeaders := "Authorization, Content-Type, Accept, Depth, Prefer"

  /** A response's header map, changed in place. */
  class HeaderMap {
    var entries: map<string, seq<string>>

    constructor (entries: map<string, seq<string>>)
      ensures this.entries == entries
    {
      this.entries := entries;
    }

    /** `HeaderMap::insert`: the name afterwards has exactly this one value, whatever it had. */
    method Insert(name: string, value: string)
      modifies this
      ensures entries == old(entries)[name := [value]]
    {
      entries := entries[name := [value]];
    }
  }

  /** The headers after the CORS rewrite. */
  function WithCors(headers: map<string, seq<string>>): (r: map<string, seq<string>>)
    ensures r.Keys == headers.Keys + {AllowOrigin, AllowMethods, AllowHeaders}
    ensures r[AllowOrigin] == [AnyOrigin] && r[AllowMethods] == [AllowedMethods] && r[AllowHeaders] == [AllowedHeaders]
    ensures forall n :: n in headers && n != AllowOrigin && n != AllowMethods && n != AllowHeaders ==> r[n] == headers[n]
  {
    headers[AllowOrigin := [AnyOrigin]][AllowMethods := [AllowedMethods]][AllowHeaders := [AllowedHeaders]]
  }

  /** Rewriting twice is rewriting once. */
  lemma WithCorsIdempotent(headers: map<string, seq<string>>)
    ensures WithCors(WithCors(headers)) == WithCors(headers)
  {
    var once := WithCors(headers);
    assert WithCors(once).Keys == once.Keys;
    forall n | n in once
      ensures WithCors(once)[n] == once[n]
    {
    }
  }

  /** `cors_middleware`: the three headers are overwritten on the response's own map; status and body stay. */
  method CorsMiddleware(response: Response) returns (r: Response)
    ensures r.status == response.status && r.body == response.body
    ensures r.headers == WithCors(response.headers)
    ensures Header(r, AllowOrigin) == Some(AnyOrigin)
  {
    var parts := new HeaderMap(response.headers);
    parts.Insert(AllowOrigin, AnyOrigin);
    parts.Insert(AllowMethods, AllowedMethods);
    parts.Insert(AllowHeaders, AllowedHeaders);
    r := Response(response.status, parts.entries, response.body);
  }
}
