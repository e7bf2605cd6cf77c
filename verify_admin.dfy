/**
 * `supabase/functions/verify-admin/index.ts`: the serverless function that
 * answers whether the caller's bearer token belongs to an administrator.
 *
 * The handler is a chain of early returns over the results of three foreign
 * calls. Those calls are parameters here: whether building the service client
 * throws, the identity service's answer for a token (`auth.getUser`), and the
 * database's answer for a user id (`rpc('has_role', {_role: 'admin'})`). The
 * result records, besides the response, which tokens and user ids were looked
 * up, so that "no lookup happens" can be stated.
 */
module VerifyAdmin {
  import opened Base
  import opened JsText

  datatype Header = Header(name: string, value: string)

  /** `corsHeaders`. */
  const CorsHeaders: seq<Header> := [
    Header("Access-Control-Allow-Origin", "*"),
    Header("Access-Control-Allow-Headers", "authorization, x-client-info, apikey, content-type")
  ]

  /** The headers of every JSON response. */
  const JsonHeaders: seq<Header> := CorsHeaders + [Header("Content-Type", "application/json")]

  /** A response body: none (the preflight) or the JSON object. */
  datatype Body =
    | NoBody
    | Json(isAdmin: bool, error: Option<string>, userId: Option<string>)

  datatype Response = Response(status: int, headers: seq<Header>, body: Body)

  datatype Request = Request(httpMethod: string, authorization: Option<string>)

  /** What `auth.getUser(token)` resolves to, or that it throws. */
  datatype UserLookup = LookupThrows | LookupError | NoUser | FoundUser(id: string)

  /** A JSON value, as the `data` of the `has_role` call. */
  datatype JsonValue = JNull | JBool(b: bool) | JNumber(n: int) | JString(s: string)

  /** What `rpc('has_role', ...)` resolves to, or that it throws. */
  datatype RoleLookup = RoleThrows | RoleError | RoleData(data: JsonValue)

  /** The response and the lookups that were made on the way. */
  datatype Outcome = Outcome(response: Response, tokensLookedUp: seq<string>, rolesCheckedFor: seq<string>)

  /** `authHeader.replace('Bearer ', '')`: the first occurrence, wherever it is. */
  function TokenOf(authHeader: string): string {
    ReplaceFirst(authHeader, "Bearer ", "")
  }

  function Refusal(status: int, error: string): Response {
    Response(status, JsonHeaders, Json(false, Some(error), None))
  }

  /** The request handler. */
  function Handle(req: Request, clientThrows: bool, getUser: string -> UserLookup, hasRole: string -> RoleLookup): (o: Outcome)
    ensures o.response.body.Json? && o.response.body.isAdmin ==>
      && o.response.status == 200
      && |o.tokensLookedUp| == 1 && |o.rolesCheckedFor| == 1
      && getUser(o.tokensLookedUp[0]) == FoundUser(o.rolesCheckedFor[0])
      && hasRole(o.rolesCheckedFor[0]) == RoleData(JBool(true))
    ensures o.response.status != 200 ==>
      o.response.body.Json? && !o.response.body.isAdmin && o.response.body.error.Some? && o.response.body.userId.None?
    ensures |o.tokensLookedUp| <= 1 && |o.rolesCheckedFor| <= |o.tokensLookedUp|
  {
    if req.httpMethod == "OPTIONS" then
      Outcome(Response(200, CorsHeaders, NoBody), [], [])
    else if !Truthy(req.authorization) then
      Outcome(Refusal(401, "No authorization header"), [], [])
    else if clientThrows then
      Outcome(Refusal(500, "Internal server error"), [], [])
    else
      var token := TokenOf(req.authorization.value);
      match getUser(token)
      case LookupThrows => Outcome(Refusal(500, "Internal server error"), [token], [])
      case LookupError => Outcome(Refusal(401, "Authentication failed"), [token], [])
      case NoUser => Outcome(Refusal(401, "Authentication failed"), [token], [])
      case FoundUser(id) =>
        match hasRole(id)
        case RoleThrows => Outcome(Refusal(500, "Internal server error"), [token], [id])
        case RoleError => Outcome(Refusal(500, "Role check failed"), [token], [id])
        case RoleData(data) =>
          Outcome(Response(200, JsonHeaders, Json(data == JBool(true), None, Some(id))), [token], [id])
  }

  /** A preflight gets the CORS headers and no body, before any other work. */
  lemma PreflightComesFirst(req: Request, clientThrows: bool, getUser: string -> UserLookup, hasRole: string -> RoleLookup)
    requires req.httpMethod == "OPTIONS"
    ensures var o := Handle(req, clientThrows, getUser, hasRole);
      o.response == Response(200, CorsHeaders, NoBody) && o.tokensLookedUp == [] && o.rolesCheckedFor == []
  {
  }

  /** A missing or empty `Authorization` header is refused with 401 and nothing
      is looked up. */
  lemma MissingHeaderRefused(req: Request, clientThrows: bool, getUser: string -> UserLookup, hasRole: string -> RoleLookup)
    requires req.httpMethod != "OPTIONS" && (req.authorization == None || req.authorization == Some(""))
    ensures var o := Handle(req, clientThrows, getUser, hasRole);
      o.response == Refusal(401, "No authorization header") && o.tokensLookedUp == []
  {
  }

  /** The token looked up is the header without its first `Bearer `. */
  lemma LooksUpStrippedToken(req: Request, getUser: string -> UserLookup, hasRole: string -> RoleLookup)
    requires req.httpMethod != "OPTIONS" && Truthy(req.authorization)
    ensures Handle(req, false, getUser, hasRole).tokensLookedUp == [TokenOf(req.authorization.value)]
  {
  }

  /** An identity-service error or a missing user is a 401 refusal and no role
      is checked. */
  lemma UnknownUserRefused(req: Request, getUser: string -> UserLookup, hasRole: string -> RoleLookup)
    requires req.httpMethod != "OPTIONS" && Truthy(req.authorization)
    requires getUser(TokenOf(req.authorization.value)) in {LookupError, NoUser}
    ensures var o := Handle(req, false, getUser, hasRole);
      o.response == Refusal(401, "Authentication failed") && o.rolesCheckedFor == []
  {
  }

  /** A role-check error is a 500 refusal. */
  lemma RoleErrorRefused(req: Request, getUser: string -> UserLookup, hasRole: string -> RoleLookup)
    requires req.httpMethod != "OPTIONS" && Truthy(req.authorization)
    requires getUser(TokenOf(req.authorization.value)).FoundUser?
    requires hasRole(getUser(TokenOf(req.authorization.value)).id) == RoleError
    ensures Handle(req, false, getUser, hasRole).response == Refusal(500, "Role check failed")
  {
  }

  /** Anything that throws after the preflight is a 500 "Internal server error". */
  lemma ThrowsAreInternalErrors(req: Request, clientThrows: bool, getUser: string -> UserLookup, hasRole: string -> RoleLookup)
    requires req.httpMethod != "OPTIONS" && Truthy(req.authorization)
    requires || clientThrows
             || getUser(TokenOf(req.authorization.value)) == LookupThrows
             || (getUser(TokenOf(req.authorization.value)).FoundUser?
                 && hasRole(getUser(TokenOf(req.authorization.value)).id) == RoleThrows)
    ensures Handle(req, clientThrows, getUser, hasRole).response == Refusal(500, "Internal server error")
  {
  }

  /** A found user always gets a 200 answer whose `isAdmin` is whether the role
      data is exactly `true` (not merely truthy), together with the user id. */
  lemma AdminExactlyWhenRoleIsTrue(req: Request, getUser: string -> UserLookup, hasRole: string -> RoleLookup)
    requires req.httpMethod != "OPTIONS" && Truthy(req.authorization)
    requires getUser(TokenOf(req.authorization.value)).FoundUser?
    requires hasRole(getUser(TokenOf(req.authorization.value)).id).RoleData?
    ensures var id := getUser(TokenOf(req.authorization.value)).id;
      var o := Handle(req, false, getUser, hasRole);
      && o.response.status == 200
      && o.response.body == Json(hasRole(id).data == JBool(true), None, Some(id))
  {
  }

  /** A header that starts with `Bearer ` yields the rest as the token. */
  lemma BearerPrefixStripped(rest: string)
    ensures TokenOf("Bearer " + rest) == rest
  {
    var h := "Bearer " + rest;
    assert OccursAt(h, "Bearer ", 0);
    assert IndexOf(h, "Bearer ") == Some(0);
  }

  /** A header without `Bearer ` is passed on whole. */
  lemma NoBearerKeptWhole(h: string)
    requires !Contains(h, "Bearer ")
    ensures TokenOf(h) == h
  {
  }
}
