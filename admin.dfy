/** Site-admin operations (backend/src/admin.ts): listing users and applications, the
    approve/deny decision on an application, and removing a user. */
module Admin {
  import opened Types
  import opened Db
  import opened Utils
  import opened Listing
  import Perm

  datatype UserInfo = UserInfo(id: int, email: string, nameFirst: string, nameLast: string, zId: string, isAdmin: bool)

  function UserInfoOf(id: int, u: User): UserInfo
  {
    UserInfo(id, u.email, u.nameFirst, u.nameLast, u.zId, u.isAdmin)
  }

  /** The guard shared by the admin-only handlers: a valid session whose user is a site admin. */
  function RequireSiteAdmin(sessions: map<Token, int>, users: map<int, User>, token: Token): (r: Result<SessionUser>)
    requires SessionsRefUsers(sessions, users)
    ensures token !in sessions ==> r == Err(InvalidToken)
    ensures token in sessions && r.Err? ==> r.error == Perm.NotSiteAdmin
    ensures r.Ok? <==> token in sessions && users[sessions[token]].isAdmin
    ensures r.Ok? ==> r.value.userId == sessions[token] && r.value.user.isAdmin
  {
    match ValidateSession(sessions, users, token)
    case Err(e) => Err(e)
    case Ok(s) => if !s.user.isAdmin then Err(Perm.NotSiteAdmin) else Ok(s)
  }

  /** The ids of a listing of users. */
  function UserIds(infos: seq<UserInfo>): (ids: seq<int>)
    ensures |ids| == |infos| && forall i :: 0 <= i < |infos| ==> ids[i] == infos[i].id
  {
    seq(|infos|, i requires 0 <= i < |infos| => infos[i].id)
  }

  /** `adminGetUsers`: every user, unchanged, once each, in id order. */
  function AdminGetUsers(sessions: map<Token, int>, users: map<int, User>, nextUserId: int, token: Token)
    : (r: Result<seq<UserInfo>>)
    requires SessionsRefUsers(sessions, users) && IdsInRange(users, nextUserId)
    ensures token !in sessions ==> r == Err(InvalidToken)
    ensures r.Ok? <==> token in sessions && users[sessions[token]].isAdmin
    ensures r.Err? && token in sessions ==> r.error == Perm.NotSiteAdmin
    ensures r.Ok? ==> ListsEachOnce(UserIds(r.value), users)
    ensures r.Ok? ==> forall i :: 0 <= i < |r.value| ==>
      r.value[i].id in users && r.value[i] == UserInfoOf(r.value[i].id, users[r.value[i].id])
  {
    match RequireSiteAdmin(sessions, users, token)
    case Err(e) => Err(e)
    case Ok(_) =>
      var ids := IdsBelow(users, nextUserId);
      var infos := seq(|ids|, i requires 0 <= i < |ids| => UserInfoOf(ids[i], users[ids[i]]));
      assert UserIds(infos) == ids;
      Ok(infos)
  }

  const InvalidZId: HttpError := HttpError(BadRequest, "Invalid zId")

  /** `adminGetUserByZid`: the user holding `zId`, or 400 "Invalid zId". */
  function AdminGetUserByZid(users: map<int, User>, zId: string): (r: Result<UserInfo>)
    requires ZIdsUnique(users)
    ensures r.Err? <==> forall id :: id in users ==> users[id].zId != zId
    ensures r.Err? ==> r.error == InvalidZId
    ensures r.Ok? ==> r.value.id in users && r.value.zId == zId && r.value == UserInfoOf(r.value.id, users[r.value.id])
  {
    match UserWithZId(users, zId)
    case None => Err(InvalidZId)
    case Some(id) => Ok(UserInfoOf(id, users[id]))
  }

  const InvalidApplicationId: HttpError := HttpError(BadRequest, "Invalid applicationId")
  const SocietyNameConflict: HttpError := HttpError(ServerError, "Unique constraint failed on the fields: (`name`)")

  /** `adminApplicationApprove`'s checks; on success the result is the new society's id.
      Only an already approved application is refused, so a denied one can still be approved. */
  function ApproveOutcome(
    sessions: map<Token, int>, users: map<int, User>, societies: map<int, Society>,
    applications: map<int, Application>, nextSocietyId: int, token: Token, applicationId: int): (r: Result<int>)
    requires SessionsRefUsers(sessions, users)
    ensures token !in sessions ==> r == Err(InvalidToken)
    ensures token in sessions && !users[sessions[token]].isAdmin ==> r == Err(Perm.NotSiteAdmin)
    ensures r == Err(InvalidApplicationId) <==>
      && token in sessions && users[sessions[token]].isAdmin
      && (applicationId !in applications || applications[applicationId].status == Approved)
    ensures r == Err(SocietyNameConflict) <==>
      && token in sessions && users[sessions[token]].isAdmin
      && applicationId in applications && applications[applicationId].status != Approved
      && NameTaken(societies, applications[applicationId].name)
    ensures r.Ok? ==> r.value == nextSocietyId
    ensures r.Ok? <==>
      && token in sessions && users[sessions[token]].isAdmin
      && applicationId in applications && applications[applicationId].status != Approved
      && !NameTaken(societies, applications[applicationId].name)
  {
    match RequireSiteAdmin(sessions, users, token)
    case Err(e) => Err(e)
    case Ok(_) =>
      if applicationId !in applications || applications[applicationId].status == Approved then
        Err(InvalidApplicationId)
      else if NameTaken(societies, applications[applicationId].name) then
        Err(SocietyNameConflict)
      else Ok(nextSocietyId)
  }

  /** `adminApplicationApprove`: creates the society with the applicant as its sole
      member, with role admin, and marks the application approved. */
  method AdminApplicationApprove(db: Store, token: Token, applicationId: int) returns (r: Result<int>)
    requires db.Valid()
    modifies db`societies, db`nextSocietyId, db`members, db`applications
    ensures db.Valid()
    ensures r == ApproveOutcome(old(db.sessions), old(db.users), old(db.societies), old(db.applications),
                                old(db.nextSocietyId), token, applicationId)
    ensures r.Ok? ==>
      var app := old(db.applications)[applicationId];
      && r.value !in old(db.societies)
      && db.societies == old(db.societies)[r.value := Society(app.name, app.description, app.photoURL)]
      && db.members == old(db.members)[(app.applicantId, r.value) := RoleAdmin]
      && (forall u :: (u, r.value) in db.members ==> u == app.applicantId)
      && db.applications == old(db.applications)[applicationId := app.(status := Approved)]
      && db.nextSocietyId == old(db.nextSocietyId) + 1
    ensures r.Err? ==> db.societies == old(db.societies) && db.members == old(db.members)
                       && db.applications == old(db.applications) && db.nextSocietyId == old(db.nextSocietyId)
  {
    r := ApproveOutcome(db.sessions, db.users, db.societies, db.applications, db.nextSocietyId, token, applicationId);
    if r.Ok? {
      var app := db.applications[applicationId];
      var societyId := db.nextSocietyId;
      db.societies := db.societies[societyId := Society(app.name, app.description, app.photoURL)];
      db.nextSocietyId := db.nextSocietyId + 1;
      db.members := db.members[(app.applicantId, societyId) := RoleAdmin];
      db.applications := db.applications[applicationId := app.(status := Approved)];
    }
  }

  const InvalidApplicationIdOnDeny: HttpError := HttpError(BadRequest, "Invalid Application ID")

  /** `adminApplicationDeny`'s checks: site admin, then an existing application, whatever its status. */
  function DenyOutcome(
    sessions: map<Token, int>, users: map<int, User>, applications: map<int, Application>,
    token: Token, applicationId: int): (r: Result<()>)
    requires SessionsRefUsers(sessions, users)
    ensures token !in sessions ==> r == Err(InvalidToken)
    ensures token in sessions && !users[sessions[token]].isAdmin ==> r == Err(Perm.NotSiteAdmin)
    ensures r.Ok? <==> token in sessions && users[sessions[token]].isAdmin && applicationId in applications
    ensures r.Err? && r.error.kind == BadRequest ==> r.error == InvalidApplicationIdOnDeny
    ensures token in sessions && users[sessions[token]].isAdmin && applicationId !in applications
      ==> r == Err(InvalidApplicationIdOnDeny)
  {
    match RequireSiteAdmin(sessions, users, token)
    case Err(e) => Err(e)
    case Ok(_) => if applicationId !in applications then Err(InvalidApplicationIdOnDeny) else Ok(())
  }

  /** `adminApplicationDeny`: the status becomes denied; nothing else changes. */
  method AdminApplicationDeny(db: Store, token: Token, applicationId: int) returns (r: Result<()>)
    requires db.Valid()
    modifies db`applications
    ensures db.Valid()
    ensures r == DenyOutcome(old(db.sessions), old(db.users), old(db.applications), token, applicationId)
    ensures r.Ok? ==>
      db.applications == old(db.applications)[applicationId := old(db.applications)[applicationId].(status := Denied)]
    ensures r.Err? ==> db.applications == old(db.applications)
  {
    r := DenyOutcome(db.sessions, db.users, db.applications, token, applicationId);
    if r.Ok? {
      db.applications := db.applications[applicationId := db.applications[applicationId].(status := Denied)];
    }
  }

  /** A denied application can still be approved. */
  lemma DeniedApplicationCanBeApproved(
    sessions: map<Token, int>, users: map<int, User>, societies: map<int, Society>,
    applications: map<int, Application>, nextSocietyId: int, token: Token, applicationId: int)
    requires SessionsRefUsers(sessions, users)
    requires token in sessions && users[sessions[token]].isAdmin
    requires applicationId in applications && applications[applicationId].status == Denied
    requires !NameTaken(societies, applications[applicationId].name)
    ensures ApproveOutcome(sessions, users, societies, applications, nextSocietyId, token, applicationId).Ok?
  {
  }

  /** Approving, denying and approving again: the deny succeeds although the society
      exists, and the second approval fails on the society-name constraint. */
  lemma {:induction false} ApproveDenyApprove(
    sessions: map<Token, int>, users: map<int, User>, societies: map<int, Society>,
    applications: map<int, Application>, nextSocietyId: int, token: Token, applicationId: int)
    requires SessionsRefUsers(sessions, users)
    requires ApproveOutcome(sessions, users, societies, applications, nextSocietyId, token, applicationId).Ok?
    ensures
      var app := applications[applicationId];
      var societies1 := societies[nextSocietyId := Society(app.name, app.description, app.photoURL)];
      var applications1 := applications[applicationId := app.(status := Approved)];
      var applications2 := applications1[applicationId := app.(status := Denied)];
      && DenyOutcome(sessions, users, applications1, token, applicationId).Ok?
      && ApproveOutcome(sessions, users, societies1, applications2, nextSocietyId + 1, token, applicationId)
         == Err(SocietyNameConflict)
  {
    var app := applications[applicationId];
    var societies1 := societies[nextSocietyId := Society(app.name, app.description, app.photoURL)];
    assert societies1[nextSocietyId].name == app.name;
  }

  datatype ApplicationInfo = ApplicationInfo(
    applicationId: int, name: string, description: string, applicantId: int, status: AppStatus)

  function ApplicationInfoOf(id: int, a: Application): ApplicationInfo
  {
    ApplicationInfo(id, a.name, a.description, a.applicantId, a.status)
  }

  /** The ids of a listing of applications. */
  function ApplicationIds(infos: seq<ApplicationInfo>): (ids: seq<int>)
    ensures |ids| == |infos| && forall i :: 0 <= i < |infos| ==> ids[i] == infos[i].applicationId
  {
    seq(|infos|, i requires 0 <= i < |infos| => infos[i].applicationId)
  }

  /** `adminApplicationList`: every application, once each, in id order, built by the
      handler's push loop. */
  method AdminApplicationList(db: Store, token: Token) returns (r: Result<seq<ApplicationInfo>>)
    requires db.Valid()
    ensures token !in db.sessions ==> r == Err(InvalidToken)
    ensures r.Ok? <==> token in db.sessions && db.users[db.sessions[token]].isAdmin
    ensures r.Err? && token in db.sessions ==> r.error == Perm.NotSiteAdmin
    ensures r.Ok? ==> ListsEachOnce(ApplicationIds(r.value), db.applications)
    ensures r.Ok? ==> forall k :: 0 <= k < |r.value| ==>
      && r.value[k].applicationId in db.applications
      && r.value[k] == ApplicationInfoOf(r.value[k].applicationId, db.applications[r.value[k].applicationId])
  {
    var guard := RequireSiteAdmin(db.sessions, db.users, token);
    if guard.Err? {
      return Err(guard.error);
    }
    var apps := IdsBelow(db.applications, db.nextApplicationId);
    var ret: seq<ApplicationInfo> := [];
    for i := 0 to |apps|
      invariant |ret| == i
      invariant forall k :: 0 <= k < i ==> ret[k] == ApplicationInfoOf(apps[k], db.applications[apps[k]])
    {
      ret := ret + [ApplicationInfoOf(apps[i], db.applications[apps[i]])];
    }
    assert ApplicationIds(ret) == apps;
    r := Ok(ret);
  }

  /** `adminUserRemove`'s checks: a missing target is reported before the actor's authority. */
  function UserRemoveOutcome(sessions: map<Token, int>, users: map<int, User>, token: Token, userId: int)
    : (r: Result<()>)
    requires SessionsRefUsers(sessions, users)
    ensures token !in sessions ==> r == Err(InvalidToken)
    ensures token in sessions && userId !in users ==> r == Err(Perm.InvalidUserId)
    ensures r.Err? && r.error.kind == Forbidden ==> userId in users && r.error == InsufficientPermissions
    ensures r.Ok? <==> token in sessions && userId in users && users[sessions[token]].isAdmin
    ensures token in sessions && userId in users && !users[sessions[token]].isAdmin ==> r == Err(InsufficientPermissions)
  {
    match ValidateSession(sessions, users, token)
    case Err(e) => Err(e)
    case Ok(admin) =>
      if userId !in users then Err(Perm.InvalidUserId)
      else if !admin.user.isAdmin then Err(InsufficientPermissions)
      else Ok(())
  }

  /** `adminUserRemove`: deletes exactly that user. Rows that refer to the user are
      removed with it, as the store's foreign keys demand; the contract promises only
      that no other table gains or alters a row, since the schema's cascade rules are
      not part of this model. */
  method AdminUserRemove(db: Store, token: Token, userId: int) returns (r: Result<()>)
    requires db.Valid()
    modifies db`users, db`sessions, db`members, db`applications, db`attending, db`attended, db`resetCodes
    ensures db.Valid()
    ensures r == UserRemoveOutcome(old(db.sessions), old(db.users), token, userId)
    ensures r.Ok? ==> db.users == old(db.users) - {userId}
    ensures SubMap(db.sessions, old(db.sessions)) && SubMap(db.members, old(db.members))
    ensures SubMap(db.applications, old(db.applications)) && SubMap(db.resetCodes, old(db.resetCodes))
    ensures db.attending <= old(db.attending) && db.attended <= old(db.attended)
    ensures r.Err? ==> db.users == old(db.users) && db.sessions == old(db.sessions) && db.members == old(db.members)
                       && db.applications == old(db.applications) && db.resetCodes == old(db.resetCodes)
                       && db.attending == old(db.attending) && db.attended == old(db.attended)
  {
    r := UserRemoveOutcome(db.sessions, db.users, token, userId);
    if r.Ok? {
      db.DeleteUser(userId);
    }
  }
}
