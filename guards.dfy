/**
 * The three request guards: the access-token check that identifies the
 * caller, the blog-ownership check, and the admin-role check. Each either
 * lets the request through, with what it hands to the next handler, or
 * fails with an ApiError (or, for the role check, a TypeError).
 */
module Guards {
  import opened Wrappers
  import opened Js
  import opened Collections
  import opened ApiErrors
  import opened BlogModel
  import opened UserModel

  /**
   * The token the access guard inspects: the `accessToken` cookie when it is
   * truthy, otherwise the Authorization header with its first "Bearer "
   * removed.
   */
  function SelectToken(cookie: Option<string>, header: Option<string>): (r: Option<string>)
    ensures Truthy(cookie) ==> r == cookie
    ensures !Truthy(cookie) ==> (r.Some? <==> header.Some?)
    ensures !Truthy(cookie) && header.Some? ==> r == Some(ReplaceFirst(header.value, "Bearer ", ""))
  {
    if Truthy(cookie) then cookie
    else if header.Some? then Some(ReplaceFirst(header.value, "Bearer ", ""))
    else None
  }

  /** A header "Bearer <t>" yields <t> when no usable cookie is sent. */
  lemma SelectBearerToken(cookie: Option<string>, t: string)
    requires !Truthy(cookie)
    ensures SelectToken(cookie, Some("Bearer " + t)) == Some(t)
  {
    ReplaceFirstAtStart("Bearer ", t);
  }

  /** The catch block: `new ApiError(401, error?.message || "Invalid access token")`. */
  function AccessDenied<T>(message: Arg): (o: Outcome<T>)
    ensures o.Fail? && o.error.statusCode == 401
    ensures MessageTruthy(message) ==> o.error.message == message
  {
    Fail(NewApiError(401, MessageOr(message, "Invalid access token"), Omitted))
  }

  /**
   * verifyJWT: the caller's user, without password and refresh token, when
   * the selected token verifies under the access secret and names an existing
   * user. Every failure, including the guard's own, is rethrown as a 401.
   */
  function VerifyJwt(users: map<Id, User>, cookie: Option<string>, header: Option<string>,
                     verify: (string, Secret) -> Verified): (r: Outcome<UserView>)
    ensures !r.Thrown?
    ensures r.Fail? ==> r.error.statusCode == 401
    ensures !Truthy(SelectToken(cookie, header)) ==> r == AccessDenied(Text("Unauthorized request"))
    ensures r.Ok? <==>
      Truthy(SelectToken(cookie, header))
      && var v := verify(SelectToken(cookie, header).value, AccessSecret);
         v.Decoded? && Subject(v.claims).Some? && Subject(v.claims).value in users
    ensures r.Ok? ==>
      var v := verify(SelectToken(cookie, header).value, AccessSecret);
      r.value == ViewOf(users[Subject(v.claims).value], false) && r.value.refreshToken.None?
  {
    var token := SelectToken(cookie, header);
    if !Truthy(token) then
      AccessDenied(Text("Unauthorized request"))
    else
      match verify(token.value, AccessSecret)
      case Rejected(message) => AccessDenied(Text(message))
      case Decoded(claims) =>
        var id := Subject(claims);
        if id.None? || id.value !in users then
          AccessDenied(Text("Invalid Access Token"))
        else
          Ok(ViewOf(users[id.value], false))
  }

  /**
   * A token the application signed for a stored user, presented as a bearer
   * header, identifies that user, given a verifier that inverts the signer.
   */
  lemma VerifyIssuedAccessToken(users: map<Id, User>, id: Id, cookie: Option<string>,
                                sign: (Claims, Secret) -> string, verify: (string, Secret) -> Verified)
    requires id in users && users[id].id == id
    requires !Truthy(cookie)
    requires sign(AccessClaimsOf(users[id]), AccessSecret) != ""
    requires verify(sign(AccessClaimsOf(users[id]), AccessSecret), AccessSecret) == Decoded(AccessClaimsOf(users[id]))
    ensures VerifyJwt(users, cookie, Some("Bearer " + sign(AccessClaimsOf(users[id]), AccessSecret)), verify)
      == Ok(ViewOf(users[id], false))
  {
    var t := sign(AccessClaimsOf(users[id]), AccessSecret);
    SelectBearerToken(cookie, t);
  }

  /**
   * isBlogOwner: the blog with the permalink must exist (404) and the caller
   * must be its author (403); its id is handed on. No role is consulted, so
   * an admin who is not the author is refused like anyone else.
   */
  function IsBlogOwner(blogs: map<Id, Blog>, bound: nat, caller: Id, permalink: string): (r: Outcome<Id>)
    requires AllBelow(blogs, bound)
    ensures !r.Thrown?
    ensures !HasPermalink(blogs, permalink) <==> FailsWith(r, 404)
    ensures r.Ok? <==> HasPermalink(blogs, permalink) && blogs[BlogByPermalink(blogs, permalink, bound).value].author == caller
    ensures r.Ok? ==> r.value in blogs && blogs[r.value].permalink == permalink && blogs[r.value].author == caller
    ensures FailsWith(r, 403) ==> exists id :: id in blogs && blogs[id].permalink == permalink && blogs[id].author != caller
  {
    match BlogByPermalink(blogs, permalink, bound)
    case None => Reject(404, "Blog not found - please check the provided permalink.")
    case Some(id) =>
      if caller != blogs[id].author then
        Reject(403, "Forbidden: Only the blog owner can change the blog status.")
      else
        Ok(id)
  }

  /** What a guard that only lets the request through hands on. */
  datatype Pass = Pass

  /**
   * isAdmin: the caller's role is re-read from the user collection. A caller
   * no longer stored reads `role` of null; any role but admin fails with 401
   * through the three-argument ApiError call, so the message is null and the
   * text lands in `errors`.
   */
  function IsAdmin(users: map<Id, User>, caller: Id): (r: Outcome<Pass>)
    ensures caller !in users <==> r == Thrown(TypeError)
    ensures r.Ok? <==> caller in users && users[caller].role == Admin
    ensures r.Fail? ==>
      r.error.statusCode == 401 && r.error.message == NullArg
      && r.error.errors == Text("Only admin accounts can access this route. Unauthorized access is forbidden.")
  {
    if caller !in users then
      Thrown(TypeError)
    else if users[caller].role != Admin then
      RejectNullMessage(401, "Only admin accounts can access this route. Unauthorized access is forbidden.")
    else
      Ok(Pass)
  }
}
