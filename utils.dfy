/** Session lookup, society-name validation and the calendar path (backend/src/utils.ts). */
module Utils {
  import opened Types
  import opened Text
  import opened Db

  /** A session row together with the user it belongs to. */
  datatype SessionUser = SessionUser(token: Token, userId: int, user: User)

  const InvalidToken: HttpError := HttpError(Unauthorized, "Invalid token")

  /** The Forbidden error several handlers share. */
  const InsufficientPermissions: HttpError := HttpError(Forbidden, "Insufficient permissions")

  /** `validateSession`: the session with its user, or 401 "Invalid token". */
  function ValidateSession(sessions: map<Token, int>, users: map<int, User>, token: Token): (r: Result<SessionUser>)
    requires SessionsRefUsers(sessions, users)
    ensures r.Ok? <==> token in sessions
    ensures r.Err? ==> r.error == InvalidToken
    ensures r.Ok? ==> r.value.token == token && r.value.userId == sessions[token]
                      && r.value.userId in users && r.value.user == users[r.value.userId]
  {
    if token !in sessions then Err(InvalidToken)
    else Ok(SessionUser(token, sessions[token], users[sessions[token]]))
  }

  const InvalidSocietyName: HttpError := HttpError(BadRequest, "Invalid society name")

  /** `validateSocietyName`: a society may keep its own name; any other name must be
      1 to 100 characters of `[a-zA-Z0-9 ]` and not belong to an existing society. */
  function ValidateSocietyName(societies: map<int, Society>, name: string, societyId: Option<int>): (r: Result<()>)
    ensures r.Ok? <==>
      || (societyId.Some? && societyId.value in societies && societies[societyId.value].name == name)
      || (|name| <= 100 && IsSocietyNameText(name) && forall id :: id in societies ==> societies[id].name != name)
    ensures r.Err? ==> r.error == InvalidSocietyName
  {
    if societyId.Some? && societyId.value in societies && societies[societyId.value].name == name then Ok(())
    else if name == "" || |name| > 100 || !IsSocietyNameText(name) || NameTaken(societies, name) then
      Err(InvalidSocietyName)
    else Ok(())
  }

  /** Renaming a society to the name another society holds is refused. */
  lemma RenameToOtherSocietysNameRejected(societies: map<int, Society>, own: int, other: int)
    requires SocietyNamesUnique(societies)
    requires own in societies && other in societies && own != other
    ensures ValidateSocietyName(societies, societies[other].name, Some(own)).Err?
  {
  }

  /** A name accepted for a new society is not the name of any existing one. */
  lemma AcceptedNewNameIsFree(societies: map<int, Society>, name: string)
    requires ValidateSocietyName(societies, name, None).Ok?
    ensures !NameTaken(societies, name)
  {
  }

  const CalendarPrefix: string := "/calendar/"
  const CalendarSuffix: string := ".ics"

  /** `webcalPath`: the path of a user's calendar file, from which the zId can be read back. */
  function WebcalPath(zId: string): (r: string)
    ensures |r| == |zId| + 14
    ensures r[..10] == CalendarPrefix && r[|r| - 4..] == CalendarSuffix
    ensures r[10..|r| - 4] == zId
  {
    CalendarPrefix + zId + CalendarSuffix
  }

  /** Distinct users (distinct zIds) get distinct calendar paths. */
  lemma WebcalPathInjective(a: string, b: string)
    requires WebcalPath(a) == WebcalPath(b)
    ensures a == b
  {
    var p := WebcalPath(a);
    assert a == p[10..|p| - 4];
  }
}
