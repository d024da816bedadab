/** Registration, login and logout (backend/src/auth.ts). */
module Auth {
  import opened Types
  import opened Text
  import opened Db
  import opened Utils

  const InvalidFirstName: HttpError := HttpError(BadRequest, "Invalid first name")
  const InvalidLastName: HttpError := HttpError(BadRequest, "Invalid last name")
  const InvalidZId: HttpError := HttpError(BadRequest, "Invalid zId")
  const InvalidEmailOnRegister: HttpError := HttpError(BadRequest, "Invalid Email")
  const InvalidCredentials: HttpError := HttpError(BadRequest, "Invalid Credentials")

  function ZIdFormatError(zId: string): HttpError
  {
    HttpError(BadRequest, "zId format is incorrect " + zId)
  }

  /** The row `authRegister` creates: names and email lower-cased, the password hashed,
      and site admin exactly when the table was empty. */
  function NewUser(users: map<int, User>, email: string, zId: string, nameFirst: string, nameLast: string,
                   password: string): User
  {
    User(ToLower(email), zId, ToLower(nameFirst), ToLower(nameLast), HashPassword(password), users == map[])
  }

  /** `authRegister`'s checks, in the handler's order. */
  function RegisterOutcome(users: map<int, User>, email: string, zId: string, nameFirst: string, nameLast: string)
    : (r: Result<()>)
    ensures !IsNameText(nameFirst) ==> r == Err(InvalidFirstName)
    ensures IsNameText(nameFirst) && !IsNameText(nameLast) ==> r == Err(InvalidLastName)
    ensures IsNameText(nameFirst) && IsNameText(nameLast) && !IsZIdFormat(zId) ==> r == Err(ZIdFormatError(zId))
    ensures r.Ok? <==>
      && IsNameText(nameFirst) && IsNameText(nameLast) && IsZIdFormat(zId)
      && (forall id :: id in users ==> users[id].zId != zId)
      && IsEmail(ToLower(email))
      && (forall id :: id in users ==> users[id].email != ToLower(email))
    ensures r.Err? ==> r.error.kind == BadRequest
    ensures IsNameText(nameFirst) && IsNameText(nameLast) && IsZIdFormat(zId)
      && (exists id :: id in users && users[id].zId == zId)
      ==> r == Err(InvalidZId)
    ensures IsNameText(nameFirst) && IsNameText(nameLast) && IsZIdFormat(zId)
      && (forall id :: id in users ==> users[id].zId != zId)
      && (!IsEmail(ToLower(email)) || exists id :: id in users && users[id].email == ToLower(email))
      ==> r == Err(InvalidEmailOnRegister)
  {
    if !IsNameText(nameFirst) then Err(InvalidFirstName)
    else if !IsNameText(nameLast) then Err(InvalidLastName)
    else if !IsZIdFormat(zId) then Err(ZIdFormatError(zId))
    else if exists id :: id in users && users[id].zId == zId then Err(InvalidZId)
    else if !IsEmail(ToLower(email)) || exists id :: id in users && users[id].email == ToLower(email) then
      Err(InvalidEmailOnRegister)
    else Ok(())
  }

  /** `authRegister`: creates the user together with its first session and returns that
      session's token. */
  method AuthRegister(db: Store, email: string, zId: string, nameFirst: string, nameLast: string, password: string)
    returns (r: Result<Token>)
    requires db.Valid()
    modifies db`users, db`nextUserId, db`sessions
    ensures db.Valid()
    ensures r.Ok? <==> RegisterOutcome(old(db.users), email, zId, nameFirst, nameLast).Ok?
    ensures r.Err? ==> r.error == RegisterOutcome(old(db.users), email, zId, nameFirst, nameLast).error
    ensures r.Ok? ==>
      && old(db.nextUserId) !in old(db.users)
      && db.users == old(db.users)[old(db.nextUserId) := NewUser(old(db.users), email, zId, nameFirst, nameLast, password)]
      && r.value !in old(db.sessions)
      && db.sessions == old(db.sessions)[r.value := old(db.nextUserId)]
      && db.nextUserId == old(db.nextUserId) + 1
    ensures r.Err? ==> db.users == old(db.users) && db.sessions == old(db.sessions) && db.nextUserId == old(db.nextUserId)
  {
    var o := RegisterOutcome(db.users, email, zId, nameFirst, nameLast);
    if o.Err? {
      return Err(o.error);
    }
    var id := db.nextUserId;
    var user := NewUser(db.users, email, zId, nameFirst, nameLast, password);
    FreshStringExists(db.sessions.Keys);
    var token :| token !in db.sessions;
    db.users := db.users[id := user];
    db.nextUserId := id + 1;
    db.sessions := db.sessions[token := id];
    r := Ok(token);
  }

  /** `authLogin`'s checks: the email is looked up exactly as given, and an unknown
      email and a wrong password give the same error. */
  function LoginOutcome(users: map<int, User>, email: string, password: string): (r: Result<int>)
    requires EmailsUnique(users)
    ensures r.Ok? <==> exists id :: id in users && users[id].email == email && PasswordMatches(password, users[id].password)
    ensures r.Ok? ==> r.value in users && users[r.value].email == email
    ensures r.Err? ==> r.error == InvalidCredentials
  {
    match UserWithEmail(users, email)
    case None => Err(InvalidCredentials)
    case Some(id) => if PasswordMatches(password, users[id].password) then Ok(id) else Err(InvalidCredentials)
  }

  /** `authLogin`: a fresh session for the user. */
  method AuthLogin(db: Store, email: string, password: string) returns (r: Result<Token>)
    requires db.Valid()
    modifies db`sessions
    ensures db.Valid()
    ensures r.Ok? <==> LoginOutcome(db.users, email, password).Ok?
    ensures r.Err? ==> r.error == InvalidCredentials && db.sessions == old(db.sessions)
    ensures r.Ok? ==>
      && r.value !in old(db.sessions)
      && db.sessions == old(db.sessions)[r.value := LoginOutcome(db.users, email, password).value]
  {
    var o := LoginOutcome(db.users, email, password);
    if o.Err? {
      return Err(o.error);
    }
    FreshStringExists(db.sessions.Keys);
    var token :| token !in db.sessions;
    db.sessions := db.sessions[token := o.value];
    r := Ok(token);
  }

  /** A freshly registered user can log in with the lower-cased email and the password. */
  lemma RegisterThenLogin(users: map<int, User>, nextUserId: int, email: string, zId: string,
                          nameFirst: string, nameLast: string, password: string)
    requires EmailsUnique(users) && nextUserId !in users
    requires RegisterOutcome(users, email, zId, nameFirst, nameLast).Ok?
    ensures var users' := users[nextUserId := NewUser(users, email, zId, nameFirst, nameLast, password)];
      EmailsUnique(users') && LoginOutcome(users', ToLower(email), password) == Ok(nextUserId)
  {
    var users' := users[nextUserId := NewUser(users, email, zId, nameFirst, nameLast, password)];
    assert users'[nextUserId].email == ToLower(email);
  }

  /** Login does not lower-case: after registering with a mixed-case email, logging in
      with that same email fails unless some other account stores it verbatim. */
  lemma LoginIsCaseSensitive(users: map<int, User>, nextUserId: int, email: string, zId: string,
                             nameFirst: string, nameLast: string, password: string)
    requires EmailsUnique(users) && nextUserId !in users
    requires RegisterOutcome(users, email, zId, nameFirst, nameLast).Ok?
    requires ToLower(email) != email
    requires forall id :: id in users ==> users[id].email != email
    ensures var users' := users[nextUserId := NewUser(users, email, zId, nameFirst, nameLast, password)];
      EmailsUnique(users') && LoginOutcome(users', email, password) == Err(InvalidCredentials)
  {
    var users' := users[nextUserId := NewUser(users, email, zId, nameFirst, nameLast, password)];
    assert users'[nextUserId].email == ToLower(email);
  }

  /** The first account registered becomes a site admin; no later one does. */
  lemma OnlyFirstUserIsAdmin(users: map<int, User>, email: string, zId: string,
                             nameFirst: string, nameLast: string, password: string)
    ensures NewUser(users, email, zId, nameFirst, nameLast, password).isAdmin <==> users == map[]
  {
  }

  /** `authLogout`: the session must exist, and exactly it is deleted. */
  method AuthLogout(db: Store, token: Token) returns (r: Result<()>)
    requires db.Valid()
    modifies db`sessions
    ensures db.Valid()
    ensures r.Ok? <==> token in old(db.sessions)
    ensures r.Err? ==> r.error == InvalidToken && db.sessions == old(db.sessions)
    ensures r.Ok? ==> db.sessions == old(db.sessions) - {token}
  {
    var s := ValidateSession(db.sessions, db.users, token);
    if s.Err? {
      return Err(s.error);
    }
    db.sessions := db.sessions - {token};
    r := Ok(());
  }

  /** After logout the token is refused and every other session still works. */
  lemma LogoutInvalidatesOnlyThatToken(sessions: map<Token, int>, users: map<int, User>, token: Token, other: Token)
    requires SessionsRefUsers(sessions, users)
    requires other != token
    ensures SessionsRefUsers(sessions - {token}, users)
    ensures ValidateSession(sessions - {token}, users, token) == Err(InvalidToken)
    ensures ValidateSession(sessions - {token}, users, other) == ValidateSession(sessions, users, other)
  {
  }
}
