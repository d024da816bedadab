/** The signed-in user's own profile, events and societies (backend/src/profile.ts). */
module Profiles {
  import opened Types
  import opened Db
  import opened Utils
  import opened Listing
  import Societies

  datatype UserProfile = UserProfile(
    userId: int,
    email: string,
    nameFirst: string,
    nameLast: string,
    zId: string,
    adminSocieties: seq<int>,
    modSocieties: seq<int>,
    isSiteAdmin: bool,
    webcal: string)

  /** The societies in which `userId` holds `role`, in society-id order. */
  function SocietiesWithRole(members: map<(int, int), string>, users: map<int, User>, societies: map<int, Society>,
                             nextSocietyId: int, userId: int, role: string): (ids: seq<int>)
    requires MembersWellFormed(members, users, societies) && IdsInRange(societies, nextSocietyId)
    ensures Increasing(ids)
    ensures forall s :: s in ids <==> (userId, s) in members && members[(userId, s)] == role
  {
    Filter(IdsBelow(societies, nextSocietyId), s => (userId, s) in members && members[(userId, s)] == role)
  }

  /** `profileView`: the user's columns, the societies they administer and moderate,
      whether they are a site admin, and their calendar path. */
  function ProfileView(sessions: map<Token, int>, users: map<int, User>, societies: map<int, Society>,
                       nextSocietyId: int, members: map<(int, int), string>, token: Token): (r: Result<UserProfile>)
    requires SessionsRefUsers(sessions, users)
    requires MembersWellFormed(members, users, societies) && IdsInRange(societies, nextSocietyId)
    ensures r.Ok? <==> token in sessions
    ensures r.Err? ==> r.error == InvalidToken
    ensures r.Ok? ==> var id := sessions[token]; var u := users[id];
      && r.value.userId == id
      && r.value.email == u.email && r.value.nameFirst == u.nameFirst && r.value.nameLast == u.nameLast
      && r.value.zId == u.zId && r.value.isSiteAdmin == u.isAdmin && r.value.webcal == WebcalPath(u.zId)
      && Increasing(r.value.adminSocieties) && Increasing(r.value.modSocieties)
      && (forall s :: s in r.value.adminSocieties <==> (id, s) in members && members[(id, s)] == RoleAdmin)
      && (forall s :: s in r.value.modSocieties <==> (id, s) in members && members[(id, s)] == RoleModerator)
  {
    match ValidateSession(sessions, users, token)
    case Err(e) => Err(e)
    case Ok(s) =>
      Ok(UserProfile(
        s.userId, s.user.email, s.user.nameFirst, s.user.nameLast, s.user.zId,
        SocietiesWithRole(members, users, societies, nextSocietyId, s.userId, RoleAdmin),
        SocietiesWithRole(members, users, societies, nextSocietyId, s.userId, RoleModerator),
        s.user.isAdmin, WebcalPath(s.user.zId)))
  }

  /** A user never appears as both admin and moderator of the same society. */
  lemma AdminAndModSocietiesDisjoint(sessions: map<Token, int>, users: map<int, User>, societies: map<int, Society>,
                                     nextSocietyId: int, members: map<(int, int), string>, token: Token)
    requires SessionsRefUsers(sessions, users)
    requires MembersWellFormed(members, users, societies) && IdsInRange(societies, nextSocietyId)
    requires token in sessions
    ensures var p := ProfileView(sessions, users, societies, nextSocietyId, members, token).value;
      forall s :: s in p.adminSocieties ==> s !in p.modSocieties
  {
    var p := ProfileView(sessions, users, societies, nextSocietyId, members, token).value;
    forall s | s in p.adminSocieties ensures s !in p.modSocieties {
      assert members[(sessions[token], s)] == RoleAdmin;
    }
  }

  const InvalidEmailAddress: HttpError := HttpError(BadRequest, "Invalid email address")

  /** `profileEdit`'s checks: a session, and an email no other account holds (the
      update fails on the unique column otherwise). Neither the names nor the email's
      format is checked, and nothing is lower-cased. */
  function ProfileEditOutcome(sessions: map<Token, int>, users: map<int, User>, token: Token, email: string)
    : (r: Result<int>)
    requires SessionsRefUsers(sessions, users)
    ensures token !in sessions ==> r == Err(InvalidToken)
    ensures token in sessions && r.Err? ==> r.error == InvalidEmailAddress
    ensures r.Ok? <==> token in sessions && forall id :: id in users && id != sessions[token] ==> users[id].email != email
    ensures r.Ok? ==> r.value == sessions[token]
  {
    match ValidateSession(sessions, users, token)
    case Err(e) => Err(e)
    case Ok(s) =>
      if exists id :: id in users && id != s.userId && users[id].email == email then Err(InvalidEmailAddress)
      else Ok(s.userId)
  }

  /** The user's row after the edit: names and email replaced as given. */
  function EditedUsers(users: map<int, User>, userId: int, nameFirst: string, nameLast: string, email: string)
    : (r: map<int, User>)
    requires userId in users
    ensures r.Keys == users.Keys
    ensures forall id :: id in users && id != userId ==> r[id] == users[id]
    ensures r[userId].email == email && r[userId].nameFirst == nameFirst && r[userId].nameLast == nameLast
    ensures r[userId].zId == users[userId].zId && r[userId].isAdmin == users[userId].isAdmin
    ensures r[userId].password == users[userId].password
  {
    users[userId := users[userId].(nameFirst := nameFirst, nameLast := nameLast, email := email)]
  }

  /** An edit that passes keeps every email unique. */
  lemma EditKeepsEmailsUnique(users: map<int, User>, sessions: map<Token, int>, token: Token,
                              nameFirst: string, nameLast: string, email: string)
    requires SessionsRefUsers(sessions, users) && EmailsUnique(users)
    requires ProfileEditOutcome(sessions, users, token, email).Ok?
    ensures EmailsUnique(EditedUsers(users, sessions[token], nameFirst, nameLast, email))
  {
    var users' := EditedUsers(users, sessions[token], nameFirst, nameLast, email);
    forall a, b | a in users' && b in users' && users'[a].email == users'[b].email ensures a == b {
      if a != sessions[token] && b != sessions[token] {
        assert users'[a] == users[a] && users'[b] == users[b];
      }
    }
  }

  /** `profileEdit`: updates the row and answers with the edited profile. */
  method ProfileEdit(db: Store, token: Token, nameFirst: string, nameLast: string, email: string)
    returns (r: Result<UserProfile>)
    requires db.Valid()
    modifies db`users
    ensures db.Valid()
    ensures var o := ProfileEditOutcome(old(db.sessions), old(db.users), token, email);
      && (o.Err? ==> r == Err(o.error) && db.users == old(db.users))
      && (o.Ok? ==> db.users == EditedUsers(old(db.users), o.value, nameFirst, nameLast, email)
                    && r == ProfileView(db.sessions, db.users, db.societies, db.nextSocietyId, db.members, token))
  {
    var o := ProfileEditOutcome(db.sessions, db.users, token, email);
    if o.Err? {
      return Err(o.error);
    }
    EditKeepsEmailsUnique(db.users, db.sessions, token, nameFirst, nameLast, email);
    var users' := EditedUsers(db.users, o.value, nameFirst, nameLast, email);
    assert forall id :: id in users' ==> users'[id].zId == db.users[id].zId;
    db.users := users';
    r := ProfileView(db.sessions, db.users, db.societies, db.nextSocietyId, db.members, token);
  }

  /** Keeping one's own email always passes, whatever the names. */
  lemma KeepingOwnEmailPasses(sessions: map<Token, int>, users: map<int, User>, token: Token)
    requires SessionsRefUsers(sessions, users) && EmailsUnique(users)
    requires token in sessions
    ensures ProfileEditOutcome(sessions, users, token, users[sessions[token]].email) == Ok(sessions[token])
  {
  }

  /** The events of `ids`, projected as the handlers return them. */
  function InfosInIdOrder(events: map<int, Event>, ids: seq<int>): (infos: seq<EventInfo>)
    requires forall i :: 0 <= i < |ids| ==> ids[i] in events
    ensures EventIds(infos) == ids
    ensures forall i :: 0 <= i < |infos| ==> infos[i] == EventInfoOf(ids[i], events[ids[i]])
  {
    seq(|ids|, i requires 0 <= i < |ids| => EventInfoOf(ids[i], events[ids[i]]))
  }

  /** The events `userId` is paired with in `pairs`, in event-id order. */
  function EventsOfUser(pairs: set<(int, int)>, users: map<int, User>, events: map<int, Event>, nextEventId: int,
                        userId: int): (r: seq<EventInfo>)
    requires PairsRef(pairs, users, events) && IdsInRange(events, nextEventId)
    ensures Increasing(EventIds(r))
    ensures forall e :: e in EventIds(r) <==> (userId, e) in pairs
    ensures forall i :: 0 <= i < |r| ==> r[i].eventId in events && r[i] == EventInfoOf(r[i].eventId, events[r[i].eventId])
  {
    var ids := Filter(IdsBelow(events, nextEventId), e => (userId, e) in pairs);
    assert forall i :: 0 <= i < |ids| ==> ids[i] in ids;
    InfosInIdOrder(events, ids)
  }

  datatype ProfileEventLists = ProfileEventLists(attending: seq<EventInfo>, attended: seq<EventInfo>)

  /** `profileEvents`: the events the user has said they will attend and those recorded
      as attended. */
  function ProfileEvents(sessions: map<Token, int>, users: map<int, User>, events: map<int, Event>, nextEventId: int,
                         attending: set<(int, int)>, attended: set<(int, int)>, token: Token): (r: Result<ProfileEventLists>)
    requires SessionsRefUsers(sessions, users) && IdsInRange(events, nextEventId)
    requires PairsRef(attending, users, events) && PairsRef(attended, users, events)
    ensures r.Ok? <==> token in sessions
    ensures r.Err? ==> r.error == InvalidToken
    ensures r.Ok? ==>
      && (forall e :: e in EventIds(r.value.attending) <==> (sessions[token], e) in attending)
      && (forall e :: e in EventIds(r.value.attended) <==> (sessions[token], e) in attended)
    ensures r.Ok? ==>
      && r.value.attending == EventsOfUser(attending, users, events, nextEventId, sessions[token])
      && r.value.attended == EventsOfUser(attended, users, events, nextEventId, sessions[token])
  {
    match ValidateSession(sessions, users, token)
    case Err(e) => Err(e)
    case Ok(s) =>
      Ok(ProfileEventLists(EventsOfUser(attending, users, events, nextEventId, s.userId),
                           EventsOfUser(attended, users, events, nextEventId, s.userId)))
  }

  /** `profileSocieties`: every society the user has joined, in society-id order. */
  function ProfileSocieties(sessions: map<Token, int>, users: map<int, User>, societies: map<int, Society>,
                            nextSocietyId: int, members: map<(int, int), string>, token: Token)
    : (r: Result<seq<Societies.SocietyInfo>>)
    requires SessionsRefUsers(sessions, users)
    requires MembersWellFormed(members, users, societies) && IdsInRange(societies, nextSocietyId)
    ensures r.Ok? <==> token in sessions
    ensures r.Err? ==> r.error == InvalidToken
    ensures r.Ok? ==> Increasing(Societies.SocietyIds(r.value))
    ensures r.Ok? ==> forall s :: s in Societies.SocietyIds(r.value) <==> (sessions[token], s) in members
    ensures r.Ok? ==> forall i :: 0 <= i < |r.value| ==>
      r.value[i].societyId in societies
      && r.value[i] == Societies.SocietyInfoOf(r.value[i].societyId, societies[r.value[i].societyId])
  {
    match ValidateSession(sessions, users, token)
    case Err(e) => Err(e)
    case Ok(s) =>
      var ids := Filter(IdsBelow(societies, nextSocietyId), id => (s.userId, id) in members);
      assert forall i :: 0 <= i < |ids| ==> ids[i] in ids;
      var infos := seq(|ids|, i requires 0 <= i < |ids| => Societies.SocietyInfoOf(ids[i], societies[ids[i]]));
      assert Societies.SocietyIds(infos) == ids;
      Ok(infos)
  }
}
