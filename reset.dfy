/** Password reset by emailed code (backend/src/reset.ts). */
module Reset {
  import opened Types
  import opened Text
  import opened Db
  import Auth

  const InvalidEmailFormat: HttpError := HttpError(BadRequest, "Invalid email format")
  const InvalidCode: HttpError := HttpError(BadRequest, "Invalid code")

  /** The alphabet the code generator draws from. */
  const CodeAlphabet: string := "1234567890ABCDEFGHIJKLMNOPQRSTUVWXYZ"

  /** Six characters from `CodeAlphabet`. */
  predicate IsResetCode(code: string)
  {
    |code| == 6 && forall i :: 0 <= i < 6 ==> code[i] in CodeAlphabet
  }

  /** `authResetGenerate`'s answer: only the email's format is checked; whether an
      account has that email never shows in the reply. */
  function ResetGenerateOutcome(email: string): (r: Result<()>)
    ensures r.Ok? <==> IsEmail(email)
    ensures r.Err? ==> r.error == InvalidEmailFormat
  {
    if IsEmail(email) then Ok(()) else Err(InvalidEmailFormat)
  }

  /** The reply cannot tell a registered email from an unregistered one. */
  lemma ResetGenerateRevealsNoAccount(users: map<int, User>, email: string, other: string)
    requires EmailsUnique(users)
    requires IsEmail(email) && IsEmail(other)
    requires UserWithEmail(users, email).Some? && UserWithEmail(users, other).None?
    ensures ResetGenerateOutcome(email) == ResetGenerateOutcome(other) == Ok(())
  {
  }

  /** The code rows after the background part of `authResetGenerate` has run: the code
      is stored for the user with that exact email, unless there is none or the code is
      already in use, in which case the failure is only logged. */
  function IssueCode(users: map<int, User>, resetCodes: map<string, int>, email: string, code: string)
    : (r: map<string, int>)
    requires EmailsUnique(users)
    ensures SubMap(resetCodes, r)
    ensures r != resetCodes <==> UserWithEmail(users, email).Some? && code !in resetCodes
    ensures r != resetCodes ==> r == resetCodes[code := UserWithEmail(users, email).value]
  {
    match UserWithEmail(users, email)
    case None => resetCodes
    case Some(userId) => if code in resetCodes then resetCodes else resetCodes[code := userId]
  }

  /** The background insert of `authResetGenerate`, once it runs, with the code the
      generator drew. */
  method IssueResetCode(db: Store, email: string, code: string)
    requires db.Valid()
    requires IsResetCode(code)
    modifies db`resetCodes
    ensures db.Valid()
    ensures db.resetCodes == IssueCode(db.users, old(db.resetCodes), email, code)
  {
    db.resetCodes := IssueCode(db.users, db.resetCodes, email, code);
  }

  /** `authResetUse`'s lookup: the user the code was issued to. */
  function ResetUseOutcome(resetCodes: map<string, int>, code: string): (r: Result<int>)
    ensures r.Ok? <==> code in resetCodes
    ensures r.Ok? ==> r.value == resetCodes[code]
    ensures r.Err? ==> r.error == InvalidCode
  {
    if code in resetCodes then Ok(resetCodes[code]) else Err(InvalidCode)
  }

  /** The user's password replaced by the hash of `password`; nothing else changes. */
  function SetPassword(users: map<int, User>, userId: int, password: string): (r: map<int, User>)
    requires userId in users
    ensures r.Keys == users.Keys
    ensures forall id :: id in users && id != userId ==> r[id] == users[id]
    ensures r[userId] == users[userId].(password := HashPassword(password))
    ensures PasswordMatches(password, r[userId].password)
  {
    users[userId := users[userId].(password := HashPassword(password))]
  }

  /** `authResetUse`: sets the password of the code's user. The code is not deleted. */
  method AuthResetUse(db: Store, code: string, password: string) returns (r: Result<()>)
    requires db.Valid()
    modifies db`users
    ensures db.Valid()
    ensures r.Ok? <==> code in db.resetCodes
    ensures r.Err? ==> r.error == InvalidCode && db.users == old(db.users)
    ensures r.Ok? ==> db.users == SetPassword(old(db.users), db.resetCodes[code], password)
  {
    var o := ResetUseOutcome(db.resetCodes, code);
    if o.Err? {
      return Err(o.error);
    }
    var users' := SetPassword(db.users, o.value, password);
    assert forall id :: id in users' ==> users'[id].email == db.users[id].email && users'[id].zId == db.users[id].zId;
    db.users := users';
    r := Ok(());
  }

  /** After a reset the user logs in with the new password, and since the code stays
      stored it can be used again. */
  lemma ResetThenLogin(users: map<int, User>, resetCodes: map<string, int>, code: string, password: string)
    requires EmailsUnique(users) && ResetCodesRefUsers(resetCodes, users)
    requires code in resetCodes
    ensures var users' := SetPassword(users, resetCodes[code], password);
      && EmailsUnique(users')
      && Auth.LoginOutcome(users', users[resetCodes[code]].email, password) == Ok(resetCodes[code])
      && ResetUseOutcome(resetCodes, code).Ok?
  {
    var userId := resetCodes[code];
    var users' := SetPassword(users, userId, password);
    assert forall id :: id in users' ==> users'[id].email == users[id].email;
  }
}
