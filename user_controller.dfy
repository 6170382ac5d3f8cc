/**
 * Accounts and sessions: registration, login, token issue and refresh-token
 * rotation, logout, password change and account details. Each user holds at
 * most one refresh token; issuing overwrites it, a refresh must present
 * exactly that token and then rotates it, and logout clears it.
 */
module UserController {
  import opened Wrappers
  import opened Js
  import opened Collections
  import opened ApiErrors
  import opened UserModel
  import opened Store

  datatype Tokens = Tokens(accessToken: string, refreshToken: string)

  /** The pair `generateAccessAndRefereshTokens` signs for a user. */
  function TokensFor(u: User, sign: (Claims, Secret) -> string): (t: Tokens)
    ensures t.accessToken == sign(AccessClaimsOf(u), AccessSecret)
    ensures t.refreshToken == sign(RefreshClaimsOf(u), RefreshSecret)
  {
    Tokens(sign(AccessClaimsOf(u), AccessSecret), sign(RefreshClaimsOf(u), RefreshSecret))
  }

  /**
   * generateAccessAndRefereshTokens: signs both tokens for the stored user and
   * stores the refresh token in place of any earlier one. A user that is not
   * stored makes the token methods read null, reported as 500. The save skips
   * validation and leaves the password unmodified, so nothing is re-hashed.
   */
  method GenerateTokens(store: ContentStore, userId: Id, sign: (Claims, Secret) -> string) returns (o: Outcome<Tokens>)
    requires store.Valid()
    modifies store
    ensures store.Valid()
    ensures userId !in old(store.users) ==>
      o == Reject(500, "Something went wrong while generating referesh and access token")
      && store.users == old(store.users)
    ensures userId in old(store.users) ==>
      o == Ok(TokensFor(old(store.users)[userId], sign))
      && store.users == old(store.users)[userId := old(store.users)[userId].(refreshToken := Some(o.value.refreshToken))]
    ensures store.blogs == old(store.blogs) && store.comments == old(store.comments)
    ensures store.categories == old(store.categories) && store.likes == old(store.likes) && store.nextId == old(store.nextId)
  {
    if userId !in store.users {
      return Reject(500, "Something went wrong while generating referesh and access token");
    }
    var user := store.users[userId];
    var refreshToken := sign(RefreshClaimsOf(user), RefreshSecret);
    var accessToken := sign(AccessClaimsOf(user), AccessSecret);
    store.users := store.users[userId := user.(refreshToken := Some(refreshToken))];
    return Ok(Tokens(accessToken, refreshToken));
  }

  /** `req.cookies.refreshToken || req.body.refreshToken`. */
  function IncomingRefreshToken(cookie: Option<string>, body: Option<string>): (r: Option<string>)
    ensures Truthy(cookie) ==> r == cookie
    ensures !Truthy(cookie) ==> r == body
  {
    if Truthy(cookie) then cookie else body
  }

  /** The catch block: `new ApiError(401, error?.message || "Invalid refresh token")`. */
  function RefreshDenied<T>(message: Arg): (o: Outcome<T>)
    ensures o.Fail? && o.error.statusCode == 401
    ensures MessageTruthy(message) ==> o.error.message == message
  {
    Fail(NewApiError(401, MessageOr(message, "Invalid refresh token"), Omitted))
  }

  /**
   * The checks refreshAccessToken makes before rotating: the token verifies
   * under the refresh secret, names a stored user, and equals the token that
   * user holds. jwt.verify refuses an absent or empty token with "jwt must be
   * provided". Every failure surfaces as 401.
   */
  function CheckRefresh(users: map<Id, User>, incoming: Option<string>, verify: (string, Secret) -> Verified): (r: Outcome<Id>)
    ensures !r.Thrown?
    ensures r.Fail? ==> r.error.statusCode == 401
    ensures !Truthy(incoming) ==> r == RefreshDenied(Text("jwt must be provided"))
    ensures r.Ok? ==>
      Truthy(incoming) && r.value in users && users[r.value].refreshToken == incoming
      && verify(incoming.value, RefreshSecret).Decoded?
      && Subject(verify(incoming.value, RefreshSecret).claims) == Some(r.value)
    ensures Truthy(incoming) && verify(incoming.value, RefreshSecret).Decoded?
      && Subject(verify(incoming.value, RefreshSecret).claims).Some?
      && Subject(verify(incoming.value, RefreshSecret).claims).value in users
      && users[Subject(verify(incoming.value, RefreshSecret).claims).value].refreshToken != incoming
      ==> r == RefreshDenied(Text("Refresh token is expired or used"))
  {
    if !Truthy(incoming) then
      RefreshDenied(Text("jwt must be provided"))
    else
      match verify(incoming.value, RefreshSecret)
      case Rejected(message) => RefreshDenied(Text(message))
      case Decoded(claims) =>
        var id := Subject(claims);
        if id.None? || id.value !in users then
          RefreshDenied(Text("Invalid refresh token"))
        else if incoming != users[id.value].refreshToken then
          RefreshDenied(Text("Refresh token is expired or used"))
        else
          Ok(id.value)
  }

  /**
   * The refresh token last issued to a user is accepted, given a verifier
   * that inverts the signer.
   */
  lemma IssuedRefreshTokenAccepted(users: map<Id, User>, id: Id, sign: (Claims, Secret) -> string,
                                   verify: (string, Secret) -> Verified)
    requires id in users && users[id].id == id
    requires TokensFor(users[id], sign).refreshToken != ""
    requires users[id].refreshToken == Some(TokensFor(users[id], sign).refreshToken)
    requires verify(TokensFor(users[id], sign).refreshToken, RefreshSecret) == Decoded(RefreshClaimsOf(users[id]))
    ensures CheckRefresh(users, Some(TokensFor(users[id], sign).refreshToken), verify) == Ok(id)
  {
  }

  /**
   * After a refresh rotates the user's token, presenting the previous token
   * again is refused as expired or used, whenever the new token differs from it.
   */
  lemma RotatedTokenRejected(users: map<Id, User>, incoming: Option<string>, verify: (string, Secret) -> Verified,
                             sign: (Claims, Secret) -> string)
    requires CheckRefresh(users, incoming, verify).Ok?
    requires var id := CheckRefresh(users, incoming, verify).value;
      Some(TokensFor(users[id], sign).refreshToken) != incoming
    ensures var id := CheckRefresh(users, incoming, verify).value;
      var rotated := users[id := users[id].(refreshToken := Some(TokensFor(users[id], sign).refreshToken))];
      CheckRefresh(rotated, incoming, verify) == RefreshDenied(Text("Refresh token is expired or used"))
  {
    var id := CheckRefresh(users, incoming, verify).value;
    var rotated := users[id := users[id].(refreshToken := Some(TokensFor(users[id], sign).refreshToken))];
    assert rotated[id].refreshToken != incoming;
  }

  /** A user without a stored refresh token (after logout) cannot refresh, whatever is presented. */
  lemma LoggedOutCannotRefresh(users: map<Id, User>, id: Id, incoming: Option<string>, verify: (string, Secret) -> Verified)
    requires id in users && users[id].refreshToken.None?
    ensures CheckRefresh(users, incoming, verify) != Ok(id)
    ensures CheckRefresh(users, incoming, verify).Ok? ==> CheckRefresh(users, incoming, verify).value != id
  {
  }

  /**
   * refreshAccessToken: the checks above, then a new pair of tokens that
   * replaces the stored refresh token.
   */
  method RefreshAccessToken(store: ContentStore, cookie: Option<string>, body: Option<string>,
                            sign: (Claims, Secret) -> string, verify: (string, Secret) -> Verified)
    returns (o: Outcome<Tokens>)
    requires store.Valid()
    modifies store
    ensures store.Valid()
    ensures var check := CheckRefresh(old(store.users), IncomingRefreshToken(cookie, body), verify);
      match check
      case Ok(id) =>
        o == Ok(TokensFor(old(store.users)[id], sign))
        && store.users == old(store.users)[id := old(store.users)[id].(refreshToken := Some(o.value.refreshToken))]
      case _ =>
        o.Fail? && o.error.statusCode == 401 && store.users == old(store.users)
    ensures !o.Thrown?
    ensures store.blogs == old(store.blogs) && store.comments == old(store.comments)
    ensures store.categories == old(store.categories) && store.likes == old(store.likes) && store.nextId == old(store.nextId)
  {
    var check := CheckRefresh(store.users, IncomingRefreshToken(cookie, body), verify);
    if !check.Ok? {
      return RefreshDenied(check.error.message);
    }
    o := GenerateTokens(store, check.value, sign);
  }

  /**
   * logoutUser: unsets the caller's refresh token. The response body is built
   * with `new ApiError(200, {}, "User logged Out")`, so its message is the
   * empty object and the text lands in `errors`.
   */
  method LogoutUser(store: ContentStore, caller: Id) returns (response: ApiError)
    requires store.Valid()
    modifies store
    ensures store.Valid()
    ensures caller in old(store.users) ==>
      store.users == old(store.users)[caller := old(store.users)[caller].(refreshToken := None)]
    ensures caller !in old(store.users) ==> store.users == old(store.users)
    ensures response.statusCode == 200 && response.message == EmptyObject && response.errors == Text("User logged Out")
    ensures store.blogs == old(store.blogs) && store.comments == old(store.comments)
    ensures store.categories == old(store.categories) && store.likes == old(store.likes) && store.nextId == old(store.nextId)
  {
    if caller in store.users {
      store.users := store.users[caller := store.users[caller].(refreshToken := None)];
    }
    response := NewApiError(200, EmptyObject, Text("User logged Out"));
  }

  datatype RegisterRequest = RegisterRequest(
    fullName: Option<string>,
    username: Option<string>,
    email: Option<string>,
    number: Option<string>,
    password: Option<string>)

  /** The local paths multer stored for the `avatar` and `coverImage` fields. */
  datatype UserFiles = UserFiles(avatar: Option<string>, coverImage: Option<string>)

  /** `field?.trim() === ""` for one of the five fields. */
  predicate SomeFieldBlank(req: RegisterRequest) {
    exists f :: f in [req.fullName, req.username, req.email, req.number, req.password] && f.Some? && TrimsToEmpty(f.value)
  }

  /** All five fields are present in the body. */
  predicate AllFieldsSent(req: RegisterRequest) {
    req.fullName.Some? && req.username.Some? && req.email.Some? && req.number.Some? && req.password.Some?
  }

  /**
   * `User.find({ $or: [{ username }, { email }, { number }] })` finds a user:
   * exact, case-sensitive equality on the strings, and equality of the cast
   * value on the number.
   */
  predicate RegistrationConflict(users: map<Id, User>, req: RegisterRequest, castNumber: string -> Option<int>) {
    exists id :: id in users
      && (req.username == Some(users[id].username) || req.email == Some(users[id].email)
          || NumberMatches(req.number, castNumber, users[id].number))
  }

  /**
   * The document User.create stores: username and email through
   * `toLowerCase` (`lower`), the cast number, the hashed password and the
   * reader role.
   */
  function RegisteredUser(id: Id, req: RegisterRequest, lower: string -> string, number: int,
                          avatar: string, coverImage: Option<string>): (u: User)
    requires req.fullName.Some? && req.username.Some? && req.email.Some? && req.password.Some?
    ensures u.id == id && u.fullName == req.fullName.value && u.number == number
    ensures u.username == lower(req.username.value) && u.email == lower(req.email.value)
    ensures u.password == Bcrypt(req.password.value) && PasswordMatches(u, req.password.value)
    ensures u.role == Reader && u.refreshToken.None? && u.bio.None?
    ensures u.coverImage == Some(coverImage.GetOr("")) && u.avatar == avatar
  {
    User(id, req.fullName.value, None, lower(req.username.value), lower(req.email.value), number,
      OnSave(Bcrypt(""), req.password), None, avatar, Some(coverImage.GetOr("")), DefaultRole)
  }

  /** The cover image URL registerUser uploads, when a cover file was sent. */
  function CoverUpload(files: UserFiles, upload: string -> Option<string>): Option<string> {
    if files.coverImage.Some? then upload(files.coverImage.value) else None
  }

  /**
   * What registerUser decides, and the document it then stores under `id`.
   * The duplicate check compares the fields as sent, while the stored
   * username and email are lowercased, so a case variant of an existing
   * username or email passes the check and then breaks the unique index.
   * A number the Number path cannot cast fails the duplicate query itself.
   * With no multipart files object the avatar path reads as undefined (400);
   * with one that lacks an avatar, `avatar[0]` reads a property of undefined.
   */
  function Registration(users: map<Id, User>, id: Id, req: RegisterRequest, files: Option<UserFiles>,
                        upload: string -> Option<string>, lower: string -> string,
                        castNumber: string -> Option<int>): (r: Outcome<User>)
    ensures SomeFieldBlank(req) ==> r == Reject(400, "All fields are required")
    ensures !SomeFieldBlank(req) && NumberCastFails(req.number, castNumber) ==> r == Thrown(CastError)
    ensures !SomeFieldBlank(req) && !NumberCastFails(req.number, castNumber) && RegistrationConflict(users, req, castNumber) ==>
      r == (if files.Some? && files.value.avatar.Some? then Reject(409, "user with email or username already exists") else Thrown(TypeError))
    ensures !SomeFieldBlank(req) && !NumberCastFails(req.number, castNumber) && !RegistrationConflict(users, req, castNumber)
      && files.None?
      ==> r == Reject(400, "Avatar file is required")
    ensures r.Ok? ==>
      !SomeFieldBlank(req) && !RegistrationConflict(users, req, castNumber) && AllFieldsSent(req)
      && CastNumber(req.number.value, castNumber).Num?
      && files.Some? && files.value.avatar.Some? && upload(files.value.avatar.value).Some?
      && r.value == RegisteredUser(id, req, lower, CastNumber(req.number.value, castNumber).n,
                                   upload(files.value.avatar.value).value, CoverUpload(files.value, upload))
      && !KeyTaken(users, id, r.value)
    ensures !SomeFieldBlank(req) && AllFieldsSent(req) && CastNumber(req.number.value, castNumber).Num?
      && !RegistrationConflict(users, req, castNumber)
      && files.Some? && files.value.avatar.Some?
      && upload(files.value.avatar.value).Some? && upload(files.value.avatar.value).value != ""
      && !KeyTaken(users, id, RegisteredUser(id, req, lower, CastNumber(req.number.value, castNumber).n,
                                             upload(files.value.avatar.value).value, CoverUpload(files.value, upload)))
      ==> r.Ok?
  {
    if SomeFieldBlank(req) then Reject(400, "All fields are required")
    else if NumberCastFails(req.number, castNumber) then Thrown(CastError)
    else if RegistrationConflict(users, req, castNumber) then
      if files.None? || files.value.avatar.None? then Thrown(TypeError)
      else Reject(409, "user with email or username already exists")
    else if files.None? then Reject(400, "Avatar file is required")
    else if files.value.avatar.None? then Thrown(TypeError)
    else
      var avatar := upload(files.value.avatar.value);
      if avatar.None? then Reject(400, "Avatar file upload failed")
      else if req.username.None? || req.email.None? then Thrown(TypeError)
      else if req.fullName.None? || req.number.None? || req.password.None? || avatar.value == "" then Thrown(ValidationError)
      else
        match CastNumber(req.number.value, castNumber)
        case Null => Thrown(ValidationError)
        case Uncastable => Thrown(CastError)
        case Num(number) =>
          var user := RegisteredUser(id, req, lower, number, avatar.value, CoverUpload(files.value, upload));
          if KeyTaken(users, id, user) then Thrown(DuplicateKey) else Ok(user)
  }

  /** A registration never stores a username, email or number that another user holds. */
  lemma RegistrationKeepsKeysUnique(users: map<Id, User>, id: Id, req: RegisterRequest, files: Option<UserFiles>,
                                    upload: string -> Option<string>, lower: string -> string,
                                    castNumber: string -> Option<int>)
    requires UniqueUserKeys(users)
    requires Registration(users, id, req, files, upload, lower, castNumber).Ok?
    ensures UniqueUserKeys(users[id := Registration(users, id, req, files, upload, lower, castNumber).value])
  {
    StoreKeepsUniqueKeys(users, id, Registration(users, id, req, files, upload, lower, castNumber).value);
  }

  /** registerUser: the decision above, then the new user under the next id, returned without password or refresh token. */
  method RegisterUser(store: ContentStore, req: RegisterRequest, files: Option<UserFiles>,
                      upload: string -> Option<string>, lower: string -> string,
                      castNumber: string -> Option<int>) returns (o: Outcome<UserView>)
    requires store.Valid()
    modifies store
    ensures store.Valid()
    ensures match Registration(old(store.users), old(store.nextId), req, files, upload, lower, castNumber)
      case Ok(u) =>
        store.users == old(store.users)[old(store.nextId) := u] && store.nextId == old(store.nextId) + 1
        && o == Ok(ViewOf(u, false))
      case Fail(e) => o == Fail(e) && store.users == old(store.users) && store.nextId == old(store.nextId)
      case Thrown(x) => o == Thrown(x) && store.users == old(store.users) && store.nextId == old(store.nextId)
    ensures store.blogs == old(store.blogs) && store.comments == old(store.comments)
    ensures store.categories == old(store.categories) && store.likes == old(store.likes)
  {
    var id := store.nextId;
    match Registration(store.users, id, req, files, upload, lower, castNumber)
    case Fail(e) => return Fail(e);
    case Thrown(x) => return Thrown(x);
    case Ok(user) =>
      StoreKeepsUniqueKeys(store.users, id, user);
      store.users := store.users[id := user];
      store.nextId := store.nextId + 1;
      return Ok(ViewOf(user, false));
  }

  /** `{ $or: [{ number }, { email }] }` holds of a user. */
  predicate LoginMatch(u: User, email: Option<string>, number: Option<string>, castNumber: string -> Option<int>) {
    NumberMatches(number, castNumber, u.number) || email == Some(u.email)
  }

  /** The user `User.findOne` returns for that condition: the earliest stored one. */
  function LoginCandidate(users: map<Id, User>, bound: nat, email: Option<string>, number: Option<string>,
                          castNumber: string -> Option<int>): Option<Id>
    requires AllBelow(users, bound)
  {
    FindFirst(users, (u: User) => LoginMatch(u, email, number, castNumber), bound)
  }

  /**
   * The checks loginUser makes: a password or an email is sent (400), the
   * number casts (CastError), a user has the number or the email as sent
   * (404), and the password matches (401). An absent password reaches
   * bcrypt.compare, which throws.
   */
  function LoginCheck(users: map<Id, User>, bound: nat, email: Option<string>, number: Option<string>,
                      password: Option<string>, castNumber: string -> Option<int>): (r: Outcome<Id>)
    requires AllBelow(users, bound)
    ensures !(Truthy(password) || Truthy(email)) ==> r == Reject(400, "Username or Email Is Required")
    ensures (Truthy(password) || Truthy(email)) && NumberCastFails(number, castNumber) ==> r == Thrown(CastError)
    ensures r.Ok? ==>
      r.value in users && password.Some? && PasswordMatches(users[r.value], password.value)
      && LoginMatch(users[r.value], email, number, castNumber)
    ensures (Truthy(password) || Truthy(email)) && !NumberCastFails(number, castNumber)
      && (forall id :: id in users ==> !LoginMatch(users[id], email, number, castNumber))
      ==> r == Reject(404, "User does not exist")
    ensures (Truthy(password) || Truthy(email)) && !NumberCastFails(number, castNumber) ==>
      var found := LoginCandidate(users, bound, email, number, castNumber);
      found.Some? ==>
        found.value in users
        && r == (if password.None? then Thrown(BcryptError)
                 else if PasswordMatches(users[found.value], password.value) then Ok(found.value)
                 else Reject(401, "Enter Correct Password"))
    ensures FailsWith(r, 401) ==> password.Some? && exists id :: id in users && !PasswordMatches(users[id], password.value)
  {
    if !(Truthy(password) || Truthy(email)) then
      Reject(400, "Username or Email Is Required")
    else if NumberCastFails(number, castNumber) then
      Thrown(CastError)
    else
      match LoginCandidate(users, bound, email, number, castNumber)
      case None => Reject(404, "User does not exist")
      case Some(id) =>
        if password.None? then Thrown(BcryptError)
        else if !PasswordMatches(users[id], password.value) then Reject(401, "Enter Correct Password")
        else Ok(id)
  }

  /**
   * An empty number is cast to null and matches no user, so a login that
   * sends `number: ""` with a stored user's email and password logs in the
   * earliest user holding that email.
   */
  lemma EmptyNumberLogsInByEmail(users: map<Id, User>, bound: nat, id: Id, email: string, password: string,
                                 castNumber: string -> Option<int>)
    requires AllBelow(users, bound)
    requires email != "" && id in users && users[id].email == email && PasswordMatches(users[id], password)
    requires forall other :: other in users && other < id ==> users[other].email != email
    ensures LoginCheck(users, bound, Some(email), Some(""), Some(password), castNumber) == Ok(id)
  {
    var found := LoginCandidate(users, bound, Some(email), Some(""), castNumber);
    assert LoginMatch(users[id], Some(email), Some(""), castNumber);
    assert forall other :: other in users && other < id ==> !LoginMatch(users[other], Some(email), Some(""), castNumber);
    assert found.Some? by {
      if found.None? {
        assert id < bound;
      }
    }
    assert found.value == id by {
      assert !(found.value < id);
      assert !(id < found.value);
    }
  }

  datatype LoginResult = LoginResult(user: UserView, tokens: Tokens)

  /** loginUser: the checks, then a fresh pair of tokens and the user without password or refresh token. */
  method LoginUser(store: ContentStore, email: Option<string>, number: Option<string>, password: Option<string>,
                   castNumber: string -> Option<int>, sign: (Claims, Secret) -> string) returns (o: Outcome<LoginResult>)
    requires store.Valid()
    modifies store
    ensures store.Valid()
    ensures match LoginCheck(old(store.users), old(store.nextId), email, number, password, castNumber)
      case Ok(id) =>
        var tokens := TokensFor(old(store.users)[id], sign);
        var u := old(store.users)[id].(refreshToken := Some(tokens.refreshToken));
        store.users == old(store.users)[id := u] && o == Ok(LoginResult(ViewOf(u, false), tokens))
      case Fail(e) => o == Fail(e) && store.users == old(store.users)
      case Thrown(x) => o == Thrown(x) && store.users == old(store.users)
    ensures store.blogs == old(store.blogs) && store.comments == old(store.comments)
    ensures store.categories == old(store.categories) && store.likes == old(store.likes) && store.nextId == old(store.nextId)
  {
    var check := LoginCheck(store.users, store.nextId, email, number, password, castNumber);
    match check
    case Fail(e) => return Fail(e);
    case Thrown(x) => return Thrown(x);
    case Ok(id) =>
      var issued := GenerateTokens(store, id, sign);
      return Ok(LoginResult(ViewOf(store.users[id], false), issued.value));
  }

  /**
   * The checks passwordChange makes, and the digest it then stores: the
   * caller exists (404), the new password equals the confirmation (401; two
   * absent values are equal), and the old password matches (401). An absent
   * old password reaches bcrypt.compare, which throws. An absent new password
   * fails the un-awaited save, so the stored digest stays as it was (the
   * unhandled rejection that then ends the server is outside the model).
   */
  function PasswordChangeCheck(users: map<Id, User>, caller: Id, oldPassword: Option<string>,
                               newPassword: Option<string>, confirmPassword: Option<string>): (r: Outcome<Digest>)
    ensures caller !in users ==> r == Reject(404, "User does not exist")
    ensures caller in users && newPassword != confirmPassword ==> r == Reject(401, "New password and confirm password must be same")
    ensures r.Ok? ==>
      caller in users && newPassword == confirmPassword
      && oldPassword.Some? && PasswordMatches(users[caller], oldPassword.value)
    ensures r.Ok? && newPassword.Some? ==> r.value == Bcrypt(newPassword.value)
    ensures r.Ok? && newPassword.None? ==> r.value == users[caller].password
    ensures caller in users && newPassword == confirmPassword && oldPassword.None? ==> r == Thrown(BcryptError)
    ensures caller in users && newPassword == confirmPassword && oldPassword.Some? ==>
      r == (if PasswordMatches(users[caller], oldPassword.value) then Ok(OnSave(users[caller].password, newPassword))
            else Reject(401, "Enter Correct Password"))
  {
    if caller !in users then Reject(404, "User does not exist")
    else if newPassword != confirmPassword then Reject(401, "New password and confirm password must be same")
    else if oldPassword.None? then Thrown(BcryptError)
    else if !PasswordMatches(users[caller], oldPassword.value) then Reject(401, "Enter Correct Password")
    else Ok(OnSave(users[caller].password, newPassword))
  }

  /** After a successful change the new password, and not the old one, logs in. */
  lemma {:induction false} PasswordChangeTakesEffect(users: map<Id, User>, caller: Id, oldPassword: string, newPassword: string)
    requires PasswordChangeCheck(users, caller, Some(oldPassword), Some(newPassword), Some(newPassword)).Ok?
    ensures var u := users[caller].(password := PasswordChangeCheck(users, caller, Some(oldPassword), Some(newPassword), Some(newPassword)).value);
      PasswordMatches(u, newPassword) && (oldPassword != newPassword ==> !PasswordMatches(u, oldPassword))
  {
    var d := PasswordChangeCheck(users, caller, Some(oldPassword), Some(newPassword), Some(newPassword)).value;
    assert d == Bcrypt(newPassword);
  }

  /** passwordChange: the checks, then the caller's stored digest. */
  method PasswordChange(store: ContentStore, caller: Id, oldPassword: Option<string>,
                        newPassword: Option<string>, confirmPassword: Option<string>) returns (o: Outcome<Pass>)
    requires store.Valid()
    modifies store
    ensures store.Valid()
    ensures match PasswordChangeCheck(old(store.users), caller, oldPassword, newPassword, confirmPassword)
      case Ok(d) => o == Ok(Pass) && store.users == old(store.users)[caller := old(store.users)[caller].(password := d)]
      case Fail(e) => o == Fail(e) && store.users == old(store.users)
      case Thrown(x) => o == Thrown(x) && store.users == old(store.users)
    ensures store.blogs == old(store.blogs) && store.comments == old(store.comments)
    ensures store.categories == old(store.categories) && store.likes == old(store.likes) && store.nextId == old(store.nextId)
  {
    match PasswordChangeCheck(store.users, caller, oldPassword, newPassword, confirmPassword)
    case Fail(e) => return Fail(e);
    case Thrown(x) => return Thrown(x);
    case Ok(d) =>
      store.users := store.users[caller := store.users[caller].(password := d)];
      return Ok(Pass);
  }

  datatype Pass = Pass

  /**
   * updateAccountDetails: all four fields must be truthy (400); they replace
   * the stored ones as sent (the username is not lowercased here), the number
   * through the Number cast, which fails before the update runs. A caller no
   * longer stored yields null; a clash with another user's unique key is a
   * duplicate-key error. The result keeps the refresh token and drops only
   * the password.
   */
  method UpdateAccountDetails(store: ContentStore, caller: Id, fullName: Option<string>, username: Option<string>,
                              email: Option<string>, number: Option<string>, castNumber: string -> Option<int>)
    returns (o: Outcome<Option<UserView>>)
    requires store.Valid()
    modifies store
    ensures store.Valid()
    ensures !(Truthy(fullName) && Truthy(username) && Truthy(email) && Truthy(number)) ==>
      o == Reject(400, "All fields are required") && store.users == old(store.users)
    ensures Truthy(fullName) && Truthy(username) && Truthy(email) && Truthy(number) && castNumber(number.value).None? ==>
      o == Thrown(CastError) && store.users == old(store.users)
    ensures (Truthy(fullName) && Truthy(username) && Truthy(email) && Truthy(number) && castNumber(number.value).Some?
             && caller !in old(store.users)) ==>
      o == Ok(None) && store.users == old(store.users)
    ensures (Truthy(fullName) && Truthy(username) && Truthy(email) && Truthy(number) && castNumber(number.value).Some?
             && caller in old(store.users)) ==>
      var u := old(store.users)[caller].(fullName := fullName.value, username := username.value,
                                         email := email.value, number := castNumber(number.value).value);
      if KeyTaken(old(store.users), caller, u) then o == Thrown(DuplicateKey) && store.users == old(store.users)
      else o == Ok(Some(ViewOf(u, true))) && store.users == old(store.users)[caller := u]
    ensures !o.Ok? ==> store.users == old(store.users)
    ensures store.blogs == old(store.blogs) && store.comments == old(store.comments)
    ensures store.categories == old(store.categories) && store.likes == old(store.likes) && store.nextId == old(store.nextId)
  {
    if !(Truthy(fullName) && Truthy(username) && Truthy(email) && Truthy(number)) {
      return Reject(400, "All fields are required");
    }
    var cast := castNumber(number.value);
    if cast.None? {
      return Thrown(CastError);
    }
    if caller !in store.users {
      return Ok(None);
    }
    var u := store.users[caller].(fullName := fullName.value, username := username.value,
                                  email := email.value, number := cast.value);
    if KeyTaken(store.users, caller, u) {
      return Thrown(DuplicateKey);
    }
    StoreKeepsUniqueKeys(store.users, caller, u);
    store.users := store.users[caller := u];
    return Ok(Some(ViewOf(u, true)));
  }
}
