/** Society operations (backend/src/society.ts): applying for a society, joining it,
    viewing, editing and deleting it, and the member, event and search listings. */
module Societies {
  import opened Types
  import opened Text
  import opened Db
  import opened Utils
  import opened Listing
  import Perm
  import Admin

  /** `societyApply`'s checks; on success the result is the new application's id. */
  function ApplyOutcome(
    sessions: map<Token, int>, users: map<int, User>, societies: map<int, Society>,
    nextApplicationId: int, token: Token, societyName: string): (r: Result<int>)
    requires SessionsRefUsers(sessions, users)
    ensures token !in sessions ==> r == Err(InvalidToken)
    ensures token in sessions && r.Err? ==> r.error == InvalidSocietyName
    ensures r.Ok? <==>
      && token in sessions && 1 <= |societyName| <= 100 && IsSocietyNameText(societyName)
      && !NameTaken(societies, societyName)
    ensures r.Ok? ==> r.value == nextApplicationId
  {
    match ValidateSession(sessions, users, token)
    case Err(e) => Err(e)
    case Ok(_) =>
      match ValidateSocietyName(societies, societyName, None)
      case Err(e) => Err(e)
      case Ok(_) => Ok(nextApplicationId)
  }

  /** `societyApply`: one new application by the actor, with the schema's defaults
      (assumed: status pending, no photo). */
  method SocietyApply(db: Store, token: Token, societyName: string, description: string) returns (r: Result<int>)
    requires db.Valid()
    modifies db`applications, db`nextApplicationId
    ensures db.Valid()
    ensures r == ApplyOutcome(old(db.sessions), old(db.users), old(db.societies), old(db.nextApplicationId),
                              token, societyName)
    ensures r.Ok? ==>
      && r.value !in old(db.applications)
      && db.applications == old(db.applications)[r.value :=
           Application(societyName, description, None, old(db.sessions)[token], Pending)]
      && db.nextApplicationId == old(db.nextApplicationId) + 1
    ensures r.Err? ==> db.applications == old(db.applications) && db.nextApplicationId == old(db.nextApplicationId)
  {
    r := ApplyOutcome(db.sessions, db.users, db.societies, db.nextApplicationId, token, societyName);
    if r.Ok? {
      db.applications := db.applications[db.nextApplicationId :=
        Application(societyName, description, None, db.sessions[token], Pending)];
      db.nextApplicationId := db.nextApplicationId + 1;
    }
  }

  /** An accepted application can be approved by any site admin as long as no society
      has taken its name in the meantime. */
  lemma ApplyThenApprove(
    sessions: map<Token, int>, users: map<int, User>, societies: map<int, Society>,
    applications: map<int, Application>, nextApplicationId: int, nextSocietyId: int,
    token: Token, adminToken: Token, societyName: string, description: string)
    requires SessionsRefUsers(sessions, users)
    requires ApplyOutcome(sessions, users, societies, nextApplicationId, token, societyName).Ok?
    requires adminToken in sessions && users[sessions[adminToken]].isAdmin
    ensures
      var applications' := applications[nextApplicationId :=
        Application(societyName, description, None, sessions[token], Pending)];
      Admin.ApproveOutcome(sessions, users, societies, applications', nextSocietyId, adminToken, nextApplicationId)
      == Ok(nextSocietyId)
  {
  }

  /** `societyJoin`'s checks: the session is looked up directly, then the society. */
  function JoinOutcome(sessions: map<Token, int>, societies: map<int, Society>, token: Token, societyId: int)
    : (r: Result<()>)
    ensures r.Ok? <==> token in sessions && societyId in societies
    ensures token !in sessions ==> r == Err(InvalidToken)
    ensures token in sessions && r.Err? ==> r.error == Perm.InvalidSocietyId
  {
    if token !in sessions then Err(InvalidToken)
    else if societyId !in societies then Err(Perm.InvalidSocietyId)
    else Ok(())
  }

  /** The membership upsert: a missing row is created with the default role (assumed:
      member); an existing row is left as it is. */
  function JoinEffect(members: map<(int, int), string>, userId: int, societyId: int): (r: map<(int, int), string>)
    ensures (userId, societyId) in r
    ensures r[(userId, societyId)] ==
      (if (userId, societyId) in members then members[(userId, societyId)] else RoleMember)
    ensures forall k :: k != (userId, societyId) ==> (k in r <==> k in members)
    ensures SubMap(members, r)
  {
    if (userId, societyId) in members then members else members[(userId, societyId) := RoleMember]
  }

  /** Joining twice is joining once. */
  lemma JoinIdempotent(members: map<(int, int), string>, userId: int, societyId: int)
    ensures JoinEffect(JoinEffect(members, userId, societyId), userId, societyId) == JoinEffect(members, userId, societyId)
  {
  }

  /** `societyJoin`. */
  method SocietyJoin(db: Store, token: Token, societyId: int) returns (r: Result<()>)
    requires db.Valid()
    modifies db`members
    ensures db.Valid()
    ensures r == JoinOutcome(old(db.sessions), old(db.societies), token, societyId)
    ensures r.Ok? ==> db.members == JoinEffect(old(db.members), old(db.sessions)[token], societyId)
    ensures r.Err? ==> db.members == old(db.members)
  {
    r := JoinOutcome(db.sessions, db.societies, token, societyId);
    if r.Ok? {
      db.members := JoinEffect(db.members, db.sessions[token], societyId);
    }
  }

  /** A society as the handlers return it. */
  datatype SocietyInfo = SocietyInfo(societyId: int, societyName: string, description: string, photoURL: Option<string>)

  function SocietyInfoOf(id: int, s: Society): SocietyInfo
  {
    SocietyInfo(id, s.name, s.description, s.photoURL)
  }

  /** `societyView`: the stored society, or 400 "Invalid societyId". */
  function SocietyView(societies: map<int, Society>, societyId: int): (r: Result<SocietyInfo>)
    ensures r.Ok? <==> societyId in societies
    ensures r.Err? ==> r.error == Perm.InvalidSocietyId
    ensures r.Ok? ==> r.value.societyId == societyId && r.value == SocietyInfoOf(societyId, societies[societyId])
  {
    if societyId !in societies then Err(Perm.InvalidSocietyId)
    else Ok(SocietyInfoOf(societyId, societies[societyId]))
  }

  const SocietyDoesNotExist: HttpError := HttpError(BadRequest, "Society does not exist")
  /** The message carries the source's own misspelling. */
  const EditForbidden: HttpError := HttpError(Forbidden, "Insufficient permisisons")

  /** Only a site admin or the society's own admins may edit it; moderators may not. */
  predicate MayEditSociety(members: map<(int, int), string>, user: User, userId: int, societyId: int)
  {
    user.isAdmin || ((userId, societyId) in members && members[(userId, societyId)] == RoleAdmin)
  }

  /** `societyEdit`'s checks, in the handler's order. */
  function EditOutcome(
    sessions: map<Token, int>, users: map<int, User>, societies: map<int, Society>,
    members: map<(int, int), string>, token: Token, societyId: int, societyName: string): (r: Result<()>)
    requires SessionsRefUsers(sessions, users)
    ensures token !in sessions ==> r == Err(InvalidToken)
    ensures token in sessions && societyId !in societies ==> r == Err(SocietyDoesNotExist)
    ensures r == Err(EditForbidden) <==>
      && token in sessions && societyId in societies
      && !MayEditSociety(members, users[sessions[token]], sessions[token], societyId)
    ensures r == Err(InvalidSocietyName) <==>
      && token in sessions && societyId in societies
      && MayEditSociety(members, users[sessions[token]], sessions[token], societyId)
      && ValidateSocietyName(societies, societyName, Some(societyId)).Err?
    ensures r.Ok? <==>
      && token in sessions && societyId in societies
      && MayEditSociety(members, users[sessions[token]], sessions[token], societyId)
      && (societies[societyId].name == societyName || (|societyName| <= 100 && IsSocietyNameText(societyName)
          && !NameTaken(societies, societyName)))
  {
    match ValidateSession(sessions, users, token)
    case Err(e) => Err(e)
    case Ok(actor) =>
      if societyId !in societies then Err(SocietyDoesNotExist)
      else if !actor.user.isAdmin && ((actor.userId, societyId) !in members || members[(actor.userId, societyId)] != RoleAdmin) then
        Err(EditForbidden)
      else
        match ValidateSocietyName(societies, societyName, Some(societyId))
        case Err(e) => Err(e)
        case Ok(_) => Ok(())
  }

  /** `societyEdit`: only the name and the description change. */
  method SocietyEdit(db: Store, token: Token, societyId: int, societyName: string, description: string)
    returns (r: Result<()>)
    requires db.Valid()
    modifies db`societies
    ensures db.Valid()
    ensures r == EditOutcome(old(db.sessions), old(db.users), old(db.societies), old(db.members), token, societyId, societyName)
    ensures r.Ok? ==>
      db.societies == old(db.societies)[societyId := old(db.societies)[societyId].(name := societyName, description := description)]
    ensures r.Err? ==> db.societies == old(db.societies)
  {
    r := EditOutcome(db.sessions, db.users, db.societies, db.members, token, societyId, societyName);
    if r.Ok? {
      RenameKeepsNamesUnique(db.societies, societyId, societyName, description);
      db.societies := db.societies[societyId := db.societies[societyId].(name := societyName, description := description)];
    }
  }

  /** Renaming a society to its own name or to a free one keeps society names unique. */
  lemma RenameKeepsNamesUnique(societies: map<int, Society>, societyId: int, societyName: string, description: string)
    requires SocietyNamesUnique(societies) && societyId in societies
    requires societies[societyId].name == societyName || !NameTaken(societies, societyName)
    ensures SocietyNamesUnique(societies[societyId := societies[societyId].(name := societyName, description := description)])
  {
    var r := societies[societyId := societies[societyId].(name := societyName, description := description)];
    forall a, b | a in r && b in r && r[a].name == r[b].name ensures a == b {
      assert a != societyId ==> r[a] == societies[a];
      assert b != societyId ==> r[b] == societies[b];
    }
  }

  /** A society's moderator who is not a site admin may not edit it. */
  lemma ModeratorCannotEdit(
    sessions: map<Token, int>, users: map<int, User>, societies: map<int, Society>,
    members: map<(int, int), string>, token: Token, societyId: int, societyName: string)
    requires SessionsRefUsers(sessions, users)
    requires token in sessions && societyId in societies && !users[sessions[token]].isAdmin
    requires (sessions[token], societyId) in members && members[(sessions[token], societyId)] == RoleModerator
    ensures EditOutcome(sessions, users, societies, members, token, societyId, societyName) == Err(EditForbidden)
  {
  }

  /** Re-submitting the current name always passes name validation. */
  lemma KeepingOwnNameIsAccepted(
    sessions: map<Token, int>, users: map<int, User>, societies: map<int, Society>,
    members: map<(int, int), string>, token: Token, societyId: int)
    requires SessionsRefUsers(sessions, users)
    requires token in sessions && societyId in societies
    requires MayEditSociety(members, users[sessions[token]], sessions[token], societyId)
    ensures EditOutcome(sessions, users, societies, members, token, societyId, societies[societyId].name).Ok?
  {
  }

  /** A member of a society as `societyMembers` returns it. */
  datatype SocMember = SocMember(userId: int, zId: string, nameFirst: string, nameLast: string, role: string)

  function SocMemberOf(userId: int, u: User, role: string): SocMember
  {
    SocMember(userId, u.zId, u.nameFirst, u.nameLast, role)
  }

  function MemberIds(ms: seq<SocMember>): (ids: seq<int>)
    ensures |ids| == |ms| && forall i :: 0 <= i < |ms| ==> ids[i] == ms[i].userId
  {
    seq(|ms|, i requires 0 <= i < |ms| => ms[i].userId)
  }

  /** The ids of the members of `societyId`, ascending. */
  function MemberRows(members: map<(int, int), string>, users: map<int, User>, nextUserId: int,
                      societies: map<int, Society>, societyId: int): (rows: seq<int>)
    requires MembersWellFormed(members, users, societies) && IdsInRange(users, nextUserId)
    ensures Increasing(rows)
    ensures forall u :: u in rows <==> (u, societyId) in members
  {
    Filter(IdsBelow(users, nextUserId), u => (u, societyId) in members)
  }

  /** `societyMembers`: every member of the society once, in user-id order, built by
      the handler's push loop; an unknown society simply has no members. */
  method SocietyMembers(db: Store, societyId: int) returns (ms: seq<SocMember>)
    requires db.Valid()
    ensures Increasing(MemberIds(ms))
    ensures forall u :: u in MemberIds(ms) <==> (u, societyId) in db.members
    ensures forall i :: 0 <= i < |ms| ==>
      && (ms[i].userId, societyId) in db.members
      && ms[i] == SocMemberOf(ms[i].userId, db.users[ms[i].userId], db.members[(ms[i].userId, societyId)])
  {
    var members := db.members;
    var rows := MemberRows(db.members, db.users, db.nextUserId, db.societies, societyId);
    ms := [];
    for i := 0 to |rows|
      invariant |ms| == i
      invariant forall k :: 0 <= k < i ==>
        ms[k] == SocMemberOf(rows[k], db.users[rows[k]], members[(rows[k], societyId)])
    {
      ms := ms + [SocMemberOf(rows[i], db.users[rows[i]], members[(rows[i], societyId)])];
    }
    assert MemberIds(ms) == rows;
  }

  const InvalidSocietyIdOnEvents: HttpError := HttpError(BadRequest, "Invalid SocietyId")

  /** `societyEvents`: the society's events that have not started before `now`, in
      (time, name, description, id) order. */
  function SocietyEvents(societies: map<int, Society>, events: map<int, Event>, nextEventId: int, societyId: int, now: int)
    : (r: Result<seq<EventInfo>>)
    requires IdsInRange(events, nextEventId)
    ensures r.Ok? <==> societyId in societies
    ensures r.Err? ==> r.error == InvalidSocietyIdOnEvents
    ensures r.Ok? ==> EventsInOrder(r.value, events)
    ensures r.Ok? ==> forall id :: id in EventIds(r.value) <==>
      id in events && events[id].societyId == societyId && events[id].time >= now
  {
    if societyId !in societies then Err(InvalidSocietyIdOnEvents)
    else
      var ids := SelectOrdered(IdsBelow(events, nextEventId),
                               id => id in events && events[id].societyId == societyId && events[id].time >= now,
                               id => EventKeyIn(events, id));
      Ok(EventInfosOf(events, ids))
  }

  /** The `OR` filter of `societyList`; an empty search string adds no filter. */
  predicate SocietyMatches(s: Society, search: string)
  {
    search == "" || Contains(s.name, search) || Contains(s.description, search)
  }

  function SocietyKey(info: SocietyInfo): SortKey
  {
    SortKey(0, info.societyName, info.description, info.societyId)
  }

  function SocietyKeyIn(societies: map<int, Society>, id: int): (k: SortKey)
    ensures k.id == id
    ensures id in societies ==> k == SocietyKey(SocietyInfoOf(id, societies[id]))
  {
    if id in societies then SocietyKey(SocietyInfoOf(id, societies[id])) else SortKey(0, "", "", id)
  }

  function SocietyIds(infos: seq<SocietyInfo>): (ids: seq<int>)
    ensures |ids| == |infos| && forall i :: 0 <= i < |infos| ==> ids[i] == infos[i].societyId
  {
    seq(|infos|, i requires 0 <= i < |infos| => infos[i].societyId)
  }

  /** Societies listed in (name, description, id) order, each as stored. */
  ghost predicate SocietiesInOrder(infos: seq<SocietyInfo>, societies: map<int, Society>)
  {
    && (forall i :: 0 <= i < |infos| ==>
          infos[i].societyId in societies && infos[i] == SocietyInfoOf(infos[i].societyId, societies[infos[i].societyId]))
    && (forall i, j :: 0 <= i < j < |infos| ==> KeyLt(SocietyKey(infos[i]), SocietyKey(infos[j])))
  }

  /** The unpaginated result of `societyList`: exactly the matching societies, in order. */
  function SocietySearch(societies: map<int, Society>, nextSocietyId: int, search: string): (r: seq<SocietyInfo>)
    requires IdsInRange(societies, nextSocietyId)
    ensures SocietiesInOrder(r, societies)
    ensures forall i :: 0 <= i < |r| ==> SocietyMatches(societies[r[i].societyId], search)
    ensures forall id :: id in SocietyIds(r) <==> id in societies && SocietyMatches(societies[id], search)
  {
    var ids := SelectOrdered(IdsBelow(societies, nextSocietyId),
                             id => id in societies && SocietyMatches(societies[id], search),
                             id => SocietyKeyIn(societies, id));
    var infos := SocietyInfosOf(societies, ids);
    assert forall i :: 0 <= i < |infos| ==> infos[i].societyId == ids[i] && ids[i] in ids;
    infos
  }

  /** The infos of `ids`, which `SelectOrdered` has put in key order. */
  function SocietyInfosOf(societies: map<int, Society>, ids: seq<int>): (infos: seq<SocietyInfo>)
    requires forall i :: 0 <= i < |ids| ==> ids[i] in societies
    requires forall i, j :: 0 <= i < j < |ids| ==> KeyLt(SocietyKeyIn(societies, ids[i]), SocietyKeyIn(societies, ids[j]))
    ensures SocietyIds(infos) == ids
    ensures SocietiesInOrder(infos, societies)
  {
    var infos := seq(|ids|, i requires 0 <= i < |ids| => SocietyInfoOf(ids[i], societies[ids[i]]));
    assert SocietyIds(infos) == ids;
    assert forall i :: 0 <= i < |ids| ==> SocietyKey(infos[i]) == SocietyKeyIn(societies, ids[i]);
    infos
  }

  /** `societyList`: a window of the search result, so every entry is a match and the
      order is kept. */
  function SocietyList(societies: map<int, Society>, nextSocietyId: int, search: string, start: Option<int>, end: Option<int>)
    : (r: seq<SocietyInfo>)
    requires IdsInRange(societies, nextSocietyId)
    ensures SocietiesInOrder(r, societies)
    ensures forall i :: 0 <= i < |r| ==> SocietyMatches(societies[r[i].societyId], search)
    ensures !Paginated(start, end) ==> r == SocietySearch(societies, nextSocietyId, search)
    ensures var all := SocietySearch(societies, nextSocietyId, search);
      exists lo, hi :: 0 <= lo <= hi <= |all| && r == all[lo..hi]
  {
    var all := SocietySearch(societies, nextSocietyId, search);
    var r := Paginate(all, start, end);
    PageOfSearch(all, PageLo(|all|, start, end), PageHi(|all|, start, end), societies, search);
    r
  }

  /** A contiguous window of an ordered list of matches is an ordered list of matches. */
  lemma PageOfSearch(all: seq<SocietyInfo>, lo: nat, hi: nat, societies: map<int, Society>, search: string)
    requires lo <= hi <= |all|
    requires SocietiesInOrder(all, societies)
    requires forall i :: 0 <= i < |all| ==> SocietyMatches(societies[all[i].societyId], search)
    ensures SocietiesInOrder(all[lo..hi], societies)
    ensures forall i :: 0 <= i < hi - lo ==> SocietyMatches(societies[all[lo..hi][i].societyId], search)
  {
    var page := all[lo..hi];
    assert forall i :: 0 <= i < |page| ==> page[i] == all[lo + i];
  }

  /** `societyDelete`'s checks: an unknown society before the actor's authority. */
  function DeleteOutcome(sessions: map<Token, int>, users: map<int, User>, societies: map<int, Society>,
                         token: Token, societyId: int): (r: Result<()>)
    requires SessionsRefUsers(sessions, users)
    ensures token !in sessions ==> r == Err(InvalidToken)
    ensures token in sessions && societyId !in societies ==> r == Err(Perm.InvalidSocietyId)
    ensures r.Err? && r.error.kind == Forbidden ==> r.error == InsufficientPermissions
    ensures r.Ok? <==> token in sessions && societyId in societies && users[sessions[token]].isAdmin
    ensures token in sessions && societyId in societies && !users[sessions[token]].isAdmin
      ==> r == Err(InsufficientPermissions)
  {
    match ValidateSession(sessions, users, token)
    case Err(e) => Err(e)
    case Ok(actor) =>
      if societyId !in societies then Err(Perm.InvalidSocietyId)
      else if !actor.user.isAdmin then Err(InsufficientPermissions)
      else Ok(())
  }

  /** Even the society's own admin may not delete it. */
  lemma SocietyAdminCannotDelete(sessions: map<Token, int>, users: map<int, User>, societies: map<int, Society>,
                                 members: map<(int, int), string>, token: Token, societyId: int)
    requires SessionsRefUsers(sessions, users)
    requires token in sessions && societyId in societies && !users[sessions[token]].isAdmin
    requires (sessions[token], societyId) in members && members[(sessions[token], societyId)] == RoleAdmin
    ensures DeleteOutcome(sessions, users, societies, token, societyId) == Err(InsufficientPermissions)
  {
  }

  /** `societyDelete`: removes the society. Rows that refer to it go with it, as the
      store's foreign keys demand; the contract promises only that no other table gains
      or alters a row, since the schema's cascade rules are not part of this model. */
  method SocietyDelete(db: Store, token: Token, societyId: int) returns (r: Result<()>)
    requires db.Valid()
    modifies db`societies, db`members, db`events, db`attending, db`attended, db`forms
    ensures db.Valid()
    ensures r == DeleteOutcome(old(db.sessions), old(db.users), old(db.societies), token, societyId)
    ensures r.Ok? ==> db.societies == old(db.societies) - {societyId}
    ensures SubMap(db.members, old(db.members)) && SubMap(db.events, old(db.events))
    ensures db.attending <= old(db.attending) && db.attended <= old(db.attended)
    ensures forall f :: f in db.forms ==> f in old(db.forms)
    ensures r.Err? ==> db.societies == old(db.societies) && db.members == old(db.members) && db.events == old(db.events)
                       && db.attending == old(db.attending) && db.attended == old(db.attended) && db.forms == old(db.forms)
  {
    r := DeleteOutcome(db.sessions, db.users, db.societies, token, societyId);
    if r.Ok? {
      db.DeleteSociety(societyId);
    }
  }
}
