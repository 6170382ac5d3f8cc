/**
 * The User document, the bcrypt digest the pre-save hook stores in place of
 * the password, the claim sets of the two JSON Web Tokens, and the
 * projections handlers return in place of the document.
 */
module UserModel {
  import opened Wrappers
  import opened Collections

  datatype Role = Admin | Author | Reader

  const DefaultRole: Role := Reader

  function RoleName(r: Role): string {
    match r
    case Admin => "admin"
    case Author => "author"
    case Reader => "reader"
  }

  /**
   * A bcrypt digest. The salt is left out, so a digest is determined by the
   * plain text, and comparing a plain text with a digest is equality of the
   * plain texts.
   */
  datatype Digest = Bcrypt(plain: string)

  datatype User = User(
    id: Id,
    fullName: string,
    bio: Option<string>,
    username: string,
    email: string,
    number: int,
    password: Digest,
    refreshToken: Option<string>,
    avatar: string,
    coverImage: Option<string>,
    role: Role)

  /** `isPasswordCorrect`: bcrypt.compare of a plain text with the stored digest. */
  predicate PasswordMatches(u: User, plain: string) {
    u.password == Bcrypt(plain)
  }

  /**
   * The pre-save hook: a newly set password is replaced by its digest, an
   * unmodified one is kept as it is.
   */
  function OnSave(stored: Digest, newPassword: Option<string>): (r: Digest)
    ensures newPassword.None? ==> r == stored
    ensures newPassword.Some? ==> r == Bcrypt(newPassword.value) && r.plain == newPassword.value
  {
    match newPassword
    case None => stored
    case Some(p) => Bcrypt(p)
  }

  /**
   * The payload of a token: the access token carries _id, email, username
   * and fullName, the refresh token only _id; any other payload a verifier
   * might accept carries no _id.
   */
  datatype Claims =
    | AccessClaims(id: Id, email: string, username: string, fullName: string)
    | RefreshClaims(id: Id)
    | OtherClaims

  /** `decodedToken?._id`. */
  function Subject(c: Claims): (r: Option<Id>)
    ensures r.None? <==> c.OtherClaims?
    ensures r.Some? ==> r.value == c.id
  {
    if c.OtherClaims? then None else Some(c.id)
  }

  function AccessClaimsOf(u: User): (c: Claims)
    ensures c.AccessClaims? && Subject(c) == Some(u.id)
    ensures c.email == u.email && c.username == u.username && c.fullName == u.fullName
  {
    AccessClaims(u.id, u.email, u.username, u.fullName)
  }

  function RefreshClaimsOf(u: User): (c: Claims)
    ensures c.RefreshClaims? && Subject(c) == Some(u.id)
  {
    RefreshClaims(u.id)
  }

  /** The two signing keys. */
  datatype Secret = AccessSecret | RefreshSecret

  /** The outcome of `jwt.verify`: the payload, or the library's error message. */
  datatype Verified = Decoded(claims: Claims) | Rejected(message: string)

  /** A user as a handler returns it: never the password, and the refresh token only when not excluded. */
  datatype UserView = UserView(
    id: Id,
    fullName: string,
    bio: Option<string>,
    username: string,
    email: string,
    number: int,
    refreshToken: Option<string>,
    avatar: string,
    coverImage: Option<string>,
    role: Role)

  /** `.select("-password")` when `withRefresh`, otherwise `.select("-password -refreshToken")`. */
  function ViewOf(u: User, withRefresh: bool): (v: UserView)
    ensures v.id == u.id && v.username == u.username && v.email == u.email && v.role == u.role
    ensures v.fullName == u.fullName && v.number == u.number && v.bio == u.bio
    ensures v.avatar == u.avatar && v.coverImage == u.coverImage
    ensures v.refreshToken == (if withRefresh then u.refreshToken else None)
  {
    UserView(u.id, u.fullName, u.bio, u.username, u.email, u.number,
      if withRefresh then u.refreshToken else None, u.avatar, u.coverImage, u.role)
  }

  /** What Mongoose's cast makes of a string sent for the Number path. */
  datatype NumberCast = Num(n: int) | Null | Uncastable

  /**
   * The Number cast: the empty string becomes null; any other string goes
   * through JavaScript's `Number` (the parameter `castNumber`, None when the
   * result is not a number, which is a CastError).
   */
  function CastNumber(s: string, castNumber: string -> Option<int>): (c: NumberCast)
    ensures c == Null <==> s == ""
    ensures s != "" ==> (c.Num? <==> castNumber(s).Some?) && (c.Num? ==> Some(c.n) == castNumber(s))
  {
    if s == "" then Null
    else match castNumber(s)
      case None => Uncastable
      case Some(n) => Num(n)
  }

  /**
   * A query condition `{ number: <sent> }` on the Number path, after the
   * cast (a failed cast is a CastError raised before the query runs). An
   * absent value, or one cast to null, matches only users without a number,
   * and the path is required, so it matches none.
   */
  predicate NumberMatches(sent: Option<string>, castNumber: string -> Option<int>, n: int) {
    sent.Some? && CastNumber(sent.value, castNumber) == Num(n)
  }

  /** A sent number the Number path cannot cast. */
  predicate NumberCastFails(sent: Option<string>, castNumber: string -> Option<int>) {
    sent.Some? && CastNumber(sent.value, castNumber).Uncastable?
  }

  /** The unique indexes on username, email and number. */
  predicate UniqueUserKeys(users: map<Id, User>) {
    forall i, j :: i in users && j in users && i != j ==>
      users[i].username != users[j].username && users[i].email != users[j].email
      && users[i].number != users[j].number
  }

  /** A document `u` stored under `id` would share a unique key with another user. */
  predicate KeyTaken(users: map<Id, User>, id: Id, u: User) {
    exists j :: j in users && j != id
      && (users[j].username == u.username || users[j].email == u.email || users[j].number == u.number)
  }

  /** Storing a user whose keys no other user holds keeps the unique indexes. */
  lemma StoreKeepsUniqueKeys(users: map<Id, User>, id: Id, u: User)
    requires UniqueUserKeys(users)
    requires !KeyTaken(users, id, u)
    ensures UniqueUserKeys(users[id := u])
  {
  }
}
