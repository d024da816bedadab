/** The permission engine (backend/src/perm.ts): site-admin allocation with two levels,
    society-role allocation with three ranked levels, and the role/level conversions. */
module Perm {
  import opened Types
  import opened Db
  import opened Utils

  /** Wire levels of a society role; a lower number is more authority. */
  const AdminLevel: int := 1
  const ModeratorLevel: int := 2
  const MemberLevel: int := 3

  /** `societyPermConverter`: wire level to stored role; anything but 1 and 2 is member. */
  function SocietyPermConverter(permLevel: int): (role: string)
    ensures IsRole(role)
    ensures role == RoleAdmin <==> permLevel == AdminLevel
    ensures role == RoleModerator <==> permLevel == ModeratorLevel
  {
    if permLevel == AdminLevel then RoleAdmin
    else if permLevel == ModeratorLevel then RoleModerator
    else RoleMember
  }

  /** `societyPermReverter`: stored role to rank; any string but admin and moderator ranks as member. */
  function SocietyPermReverter(role: string): (level: int)
    ensures AdminLevel <= level <= MemberLevel
    ensures level == AdminLevel <==> role == RoleAdmin
    ensures level == ModeratorLevel <==> role == RoleModerator
  {
    if role == RoleAdmin then AdminLevel
    else if role == RoleModerator then ModeratorLevel
    else MemberLevel
  }

  lemma LevelRoundTrip(permLevel: int)
    requires AdminLevel <= permLevel <= MemberLevel
    ensures SocietyPermReverter(SocietyPermConverter(permLevel)) == permLevel
  {
  }

  lemma RoleRoundTrip(role: string)
    requires IsRole(role)
    ensures SocietyPermConverter(SocietyPermReverter(role)) == role
  {
  }

  const NotSiteAdmin: HttpError := HttpError(Forbidden, "User is not a site admin")
  const InvalidUserId: HttpError := HttpError(BadRequest, "Invalid userId")
  const InvalidPermLevel: HttpError := HttpError(BadRequest, "Invalid permLevel")

  /** `permSiteAllocate`'s checks, in the order the handler makes them. */
  function SiteAllocateOutcome(
    sessions: map<Token, int>, users: map<int, User>, token: Token, userId: int, permLevel: int): (r: Result<()>)
    requires SessionsRefUsers(sessions, users)
    ensures token !in sessions ==> r == Err(InvalidToken)
    ensures r.Ok? <==>
      token in sessions && userId in users && (permLevel == 1 || permLevel == 2) && users[sessions[token]].isAdmin
    ensures r.Err? && r.error.kind == BadRequest ==>
      token in sessions && r.error == (if userId !in users then InvalidUserId else InvalidPermLevel)
    ensures r.Err? && r.error.kind == Forbidden ==>
      token in sessions && userId in users && (permLevel == 1 || permLevel == 2) && r.error == NotSiteAdmin
    ensures r.Err? ==> r.error.kind != ServerError
    ensures token in sessions && userId !in users ==> r == Err(InvalidUserId)
    ensures token in sessions && userId in users && !(permLevel == 1 || permLevel == 2) ==> r == Err(InvalidPermLevel)
    ensures token in sessions && userId in users && (permLevel == 1 || permLevel == 2) && !users[sessions[token]].isAdmin
      ==> r == Err(NotSiteAdmin)
  {
    if token !in sessions then Err(InvalidToken)
    else if userId !in users then Err(InvalidUserId)
    else if !(permLevel == 1 || permLevel == 2) then Err(InvalidPermLevel)
    else if !users[sessions[token]].isAdmin then Err(NotSiteAdmin)
    else Ok(())
  }

  /** `permSiteAllocate`: a site admin sets the target's site-admin flag to `permLevel == 1`. */
  method PermSiteAllocate(db: Store, token: Token, userId: int, permLevel: int) returns (r: Result<()>)
    requires db.Valid()
    modifies db`users
    ensures db.Valid()
    ensures r == SiteAllocateOutcome(old(db.sessions), old(db.users), token, userId, permLevel)
    ensures r.Ok? ==> db.users == old(db.users)[userId := old(db.users)[userId].(isAdmin := permLevel == 1)]
    ensures r.Err? ==> db.users == old(db.users)
  {
    r := SiteAllocateOutcome(db.sessions, db.users, token, userId, permLevel);
    if r.Ok? {
      db.users := db.users[userId := db.users[userId].(isAdmin := permLevel == 1)];
    }
  }

  /** There is no self-protection: a site admin may demote themself, and is then refused. */
  lemma AdminMayDemoteSelf(sessions: map<Token, int>, users: map<int, User>, token: Token)
    requires SessionsRefUsers(sessions, users)
    requires token in sessions && users[sessions[token]].isAdmin
    ensures SiteAllocateOutcome(sessions, users, token, sessions[token], 2).Ok?
    ensures
      var self := sessions[token];
      var after := users[self := users[self].(isAdmin := false)];
      SiteAllocateOutcome(sessions, after, token, self, 1) == Err(NotSiteAdmin)
  {
  }

  const TargetNotMember: HttpError := HttpError(BadRequest, "User is not a member of the society")
  const InvalidSocietyId: HttpError := HttpError(BadRequest, "Invalid societyId")
  const ActorNotMember: HttpError := HttpError(Forbidden, "Token user is not a member of the society")
  const CannotManageUser: HttpError := HttpError(Forbidden, "Token user does not have permission to manage this user")
  const CannotManageLevel: HttpError := HttpError(Forbidden, "Token user does not have permission to manage this permLevel")

  /** A non-site-admin actor may give the target `permLevel`: the actor is a member whose
      rank is at least the target's current rank and at least the level granted. */
  predicate ActorMayAssign(members: map<(int, int), string>, actorId: int, userId: int, societyId: int, permLevel: int)
    requires (userId, societyId) in members
  {
    && (actorId, societyId) in members
    && SocietyPermReverter(members[(actorId, societyId)]) <= SocietyPermReverter(members[(userId, societyId)])
    && SocietyPermReverter(members[(actorId, societyId)]) <= permLevel
  }

  /** The request names an existing user who is a member of an existing society, and a level 1 to 3. */
  predicate AllocationRequestValid(users: map<int, User>, societies: map<int, Society>,
                                   members: map<(int, int), string>, userId: int, societyId: int, permLevel: int)
  {
    userId in users && societyId in societies && 1 <= permLevel <= 3 && (userId, societyId) in members
  }

  /** `permSocietyAllocate`'s checks: every BadRequest before any authority check. */
  function SocietyAllocateOutcome(
    sessions: map<Token, int>, users: map<int, User>, societies: map<int, Society>,
    members: map<(int, int), string>, token: Token, userId: int, societyId: int, permLevel: int): (r: Result<()>)
    requires SessionsRefUsers(sessions, users)
    ensures token !in sessions ==> r == Err(InvalidToken)
    ensures r.Err? && r.error.kind == BadRequest ==>
      token in sessions && r.error ==
        (if userId !in users then InvalidUserId
         else if societyId !in societies then InvalidSocietyId
         else if !(1 <= permLevel <= 3) then InvalidPermLevel
         else TargetNotMember)
    ensures r.Err? && r.error.kind == Forbidden ==>
      && token in sessions && userId in users && societyId in societies && 1 <= permLevel <= 3
      && (userId, societyId) in members && !users[sessions[token]].isAdmin
      && !ActorMayAssign(members, sessions[token], userId, societyId, permLevel)
    ensures r.Ok? <==>
      && token in sessions && userId in users && societyId in societies && 1 <= permLevel <= 3
      && (userId, societyId) in members
      && (users[sessions[token]].isAdmin || ActorMayAssign(members, sessions[token], userId, societyId, permLevel))
    ensures r.Err? ==> r.error.kind != ServerError
    ensures token in sessions && userId !in users ==> r == Err(InvalidUserId)
    ensures token in sessions && userId in users && societyId !in societies ==> r == Err(InvalidSocietyId)
    ensures token in sessions && userId in users && societyId in societies && !(1 <= permLevel <= 3)
      ==> r == Err(InvalidPermLevel)
    ensures token in sessions && userId in users && societyId in societies && 1 <= permLevel <= 3
      && (userId, societyId) !in members
      ==> r == Err(TargetNotMember)
    ensures token in sessions && AllocationRequestValid(users, societies, members, userId, societyId, permLevel)
      && !users[sessions[token]].isAdmin && (sessions[token], societyId) !in members
      ==> r == Err(ActorNotMember)
    ensures token in sessions && AllocationRequestValid(users, societies, members, userId, societyId, permLevel)
      && !users[sessions[token]].isAdmin && (sessions[token], societyId) in members
      && SocietyPermReverter(members[(sessions[token], societyId)]) > SocietyPermReverter(members[(userId, societyId)])
      ==> r == Err(CannotManageUser)
    ensures token in sessions && AllocationRequestValid(users, societies, members, userId, societyId, permLevel)
      && !users[sessions[token]].isAdmin && (sessions[token], societyId) in members
      && SocietyPermReverter(members[(sessions[token], societyId)]) <= SocietyPermReverter(members[(userId, societyId)])
      && SocietyPermReverter(members[(sessions[token], societyId)]) > permLevel
      ==> r == Err(CannotManageLevel)
  {
    match ValidateSession(sessions, users, token)
    case Err(e) => Err(e)
    case Ok(actor) =>
      if userId !in users then Err(InvalidUserId)
      else if societyId !in societies then Err(InvalidSocietyId)
      else if !(permLevel == 1 || permLevel == 2 || permLevel == 3) then Err(InvalidPermLevel)
      else if (userId, societyId) !in members then Err(TargetNotMember)
      else if actor.user.isAdmin then Ok(())
      else if (actor.userId, societyId) !in members then Err(ActorNotMember)
      else
        var userPermLevel := SocietyPermReverter(members[(userId, societyId)]);
        var tokenPermLevel := SocietyPermReverter(members[(actor.userId, societyId)]);
        if tokenPermLevel > userPermLevel then Err(CannotManageUser)
        else if tokenPermLevel > permLevel then Err(CannotManageLevel)
        else Ok(())
  }

  /** `permSocietyAllocate`: on success only the target's role in that society changes. */
  method PermSocietyAllocate(db: Store, token: Token, userId: int, societyId: int, permLevel: int)
    returns (r: Result<()>)
    requires db.Valid()
    modifies db`members
    ensures db.Valid()
    ensures r == SocietyAllocateOutcome(old(db.sessions), old(db.users), old(db.societies), old(db.members),
                                        token, userId, societyId, permLevel)
    ensures r.Ok? ==> db.members == old(db.members)[(userId, societyId) := SocietyPermConverter(permLevel)]
    ensures r.Err? ==> db.members == old(db.members)
  {
    r := SocietyAllocateOutcome(db.sessions, db.users, db.societies, db.members, token, userId, societyId, permLevel);
    if r.Ok? {
      db.members := db.members[(userId, societyId) := SocietyPermConverter(permLevel)];
    }
  }

  /** A non-site-admin never leaves anyone ranked above itself: after a successful
      allocation the target's new rank is no higher than the actor's. */
  lemma {:induction false} AllocationStaysBelowActor(
    sessions: map<Token, int>, users: map<int, User>, societies: map<int, Society>,
    members: map<(int, int), string>, token: Token, userId: int, societyId: int, permLevel: int)
    requires SessionsRefUsers(sessions, users)
    requires SocietyAllocateOutcome(sessions, users, societies, members, token, userId, societyId, permLevel).Ok?
    requires !users[sessions[token]].isAdmin
    ensures
      var after := members[(userId, societyId) := SocietyPermConverter(permLevel)];
      && (sessions[token], societyId) in after
      && SocietyPermReverter(after[(sessions[token], societyId)]) <= SocietyPermReverter(after[(userId, societyId)])
  {
    LevelRoundTrip(permLevel);
  }

  /** Equal ranks may manage each other: a moderator may set another moderator to member. */
  lemma EqualRanksMayManage(
    sessions: map<Token, int>, users: map<int, User>, societies: map<int, Society>,
    members: map<(int, int), string>, token: Token, userId: int, societyId: int)
    requires SessionsRefUsers(sessions, users)
    requires token in sessions && userId in users && societyId in societies
    requires !users[sessions[token]].isAdmin
    requires (userId, societyId) in members && (sessions[token], societyId) in members
    requires members[(userId, societyId)] == RoleModerator == members[(sessions[token], societyId)]
    ensures SocietyAllocateOutcome(sessions, users, societies, members, token, userId, societyId, MemberLevel).Ok?
  {
  }

  /** A plain member may set another plain member to member, and to nothing higher. */
  lemma MemberMaySetMemberToMember(
    sessions: map<Token, int>, users: map<int, User>, societies: map<int, Society>,
    members: map<(int, int), string>, token: Token, userId: int, societyId: int)
    requires SessionsRefUsers(sessions, users)
    requires token in sessions && userId in users && societyId in societies
    requires !users[sessions[token]].isAdmin
    requires (userId, societyId) in members && (sessions[token], societyId) in members
    requires members[(userId, societyId)] == RoleMember == members[(sessions[token], societyId)]
    ensures SocietyAllocateOutcome(sessions, users, societies, members, token, userId, societyId, MemberLevel).Ok?
    ensures SocietyAllocateOutcome(sessions, users, societies, members, token, userId, societyId, ModeratorLevel)
            == Err(CannotManageLevel)
  {
  }

  /** A site admin needs no membership of the society at all. */
  lemma SiteAdminBypassesRanks(
    sessions: map<Token, int>, users: map<int, User>, societies: map<int, Society>,
    members: map<(int, int), string>, token: Token, userId: int, societyId: int, permLevel: int)
    requires SessionsRefUsers(sessions, users)
    requires token in sessions && users[sessions[token]].isAdmin
    requires userId in users && societyId in societies && 1 <= permLevel <= 3
    requires (userId, societyId) in members
    ensures SocietyAllocateOutcome(sessions, users, societies, members, token, userId, societyId, permLevel).Ok?
  {
  }
}
