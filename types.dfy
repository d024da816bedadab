/** Rows of the relational store and the typed HTTP errors every operation raises. */
module Types {

  type Token = string

  datatype Option<T> = None | Some(value: T)

  /** The kinds of `http-errors` the operations throw; `ServerError` stands for a
      store exception that no handler catches and that Express reports as 500. */
  datatype ErrorKind = BadRequest | Unauthorized | Forbidden | ServerError

  datatype HttpError = HttpError(kind: ErrorKind, message: string)

  datatype Result<T> = Ok(value: T) | Err(error: HttpError)

  /** The HTTP status that the error handler sends for each kind. */
  function StatusCode(kind: ErrorKind): (code: int)
    ensures 400 <= code <= 500
    ensures code == 401 <==> kind == Unauthorized
    ensures code == 403 <==> kind == Forbidden
  {
    match kind
    case BadRequest => 400
    case Unauthorized => 401
    case Forbidden => 403
    case ServerError => 500
  }

  /** A salted password hash; the model keeps what bcrypt's compare can recover. */
  datatype PasswordHash = Digest(secret: string)

  function HashPassword(password: string): PasswordHash
  {
    Digest(password)
  }

  predicate PasswordMatches(password: string, hash: PasswordHash)
  {
    hash.secret == password
  }

  datatype User = User(
    email: string,
    zId: string,
    nameFirst: string,
    nameLast: string,
    password: PasswordHash,
    isAdmin: bool)

  /** `photoURL == None` is the column's default, which the schema (not part of this model) fixes. */
  datatype Society = Society(name: string, description: string, photoURL: Option<string>)

  datatype AppStatus = Pending | Approved | Denied

  datatype Application = Application(
    name: string,
    description: string,
    photoURL: Option<string>,
    applicantId: int,
    status: AppStatus)

  /** Event times are instants, modelled as integers. */
  datatype Event = Event(
    societyId: int,
    name: string,
    description: string,
    time: int,
    location: string)

  datatype Form = Form(eventId: int, zId: string, email: string, nameFirst: string, nameLast: string)

  /** The role column of a society membership holds one of these three strings. */
  const RoleAdmin: string := "admin"
  const RoleModerator: string := "moderator"
  const RoleMember: string := "member"

  predicate IsRole(role: string)
  {
    role == RoleAdmin || role == RoleModerator || role == RoleMember
  }
}
