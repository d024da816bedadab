/** The relational store behind every operation: one table per entity, autoincrement
    counters, and the foreign-key and uniqueness constraints the schema enforces. */
module Db {
  import opened Types

  /** Autoincrement ids start at 1 and stay below the next id to hand out. */
  ghost predicate IdsInRange<T>(table: map<int, T>, next: int)
  {
    1 <= next && forall id :: id in table ==> 1 <= id < next
  }

  ghost predicate SessionsRefUsers(sessions: map<Token, int>, users: map<int, User>)
  {
    forall t :: t in sessions ==> sessions[t] in users
  }

  ghost predicate EmailsUnique(users: map<int, User>)
  {
    forall a, b :: a in users && b in users && users[a].email == users[b].email ==> a == b
  }

  ghost predicate ZIdsUnique(users: map<int, User>)
  {
    forall a, b :: a in users && b in users && users[a].zId == users[b].zId ==> a == b
  }

  ghost predicate SocietyNamesUnique(societies: map<int, Society>)
  {
    forall a, b :: a in societies && b in societies && societies[a].name == societies[b].name ==> a == b
  }

  ghost predicate MembersWellFormed(members: map<(int, int), string>, users: map<int, User>, societies: map<int, Society>)
  {
    forall k :: k in members ==> k.0 in users && k.1 in societies && IsRole(members[k])
  }

  ghost predicate ApplicationsRefUsers(applications: map<int, Application>, users: map<int, User>)
  {
    forall a :: a in applications ==> applications[a].applicantId in users
  }

  ghost predicate EventsRefSocieties(events: map<int, Event>, societies: map<int, Society>)
  {
    forall e :: e in events ==> events[e].societyId in societies
  }

  ghost predicate ResetCodesRefUsers(resetCodes: map<string, int>, users: map<int, User>)
  {
    forall c :: c in resetCodes ==> resetCodes[c] in users
  }

  ghost predicate PairsRef(pairs: set<(int, int)>, users: map<int, User>, events: map<int, Event>)
  {
    forall p :: p in pairs ==> p.0 in users && p.1 in events
  }

  /** Forms are unique on (eventId, zId, email) and refer to an existing event. */
  ghost predicate FormsWellFormed(forms: seq<Form>, events: map<int, Event>)
  {
    && (forall i :: 0 <= i < |forms| ==> forms[i].eventId in events)
    && FormKeysDistinct(forms)
  }

  ghost predicate FormKeysDistinct(forms: seq<Form>)
  {
    forall i, j :: 0 <= i < j < |forms| ==> FormKey(forms[i]) != FormKey(forms[j])
  }

  function FormKey(f: Form): (int, string, string)
  {
    (f.eventId, f.zId, f.email)
  }

  /** The id of the user whose unique `email` column equals `email`. */
  function UserWithEmail(users: map<int, User>, email: string): (r: Option<int>)
    requires EmailsUnique(users)
    ensures r.None? <==> forall id :: id in users ==> users[id].email != email
    ensures r.Some? ==> r.value in users && users[r.value].email == email
  {
    if exists id :: id in users && users[id].email == email then
      var id :| id in users && users[id].email == email;
      Some(id)
    else None
  }

  /** The id of the user whose unique `zId` column equals `zId`. */
  function UserWithZId(users: map<int, User>, zId: string): (r: Option<int>)
    requires ZIdsUnique(users)
    ensures r.None? <==> forall id :: id in users ==> users[id].zId != zId
    ensures r.Some? ==> r.value in users && users[r.value].zId == zId
  {
    if exists id :: id in users && users[id].zId == zId then
      var id :| id in users && users[id].zId == zId;
      Some(id)
    else None
  }

  /** `prisma.society.findUnique({ where: { name } })` found a row. */
  predicate NameTaken(societies: map<int, Society>, name: string)
  {
    exists id :: id in societies && societies[id].name == name
  }

  /** The membership row of `userId` in `societyId` has role admin or moderator. */
  predicate IsAdminOrModerator(members: map<(int, int), string>, userId: int, societyId: int)
  {
    (userId, societyId) in members
    && (members[(userId, societyId)] == RoleAdmin || members[(userId, societyId)] == RoleModerator)
  }

  /** `a` keeps a subset of the rows of `b`, unchanged. */
  ghost predicate SubMap<K, V>(a: map<K, V>, b: map<K, V>)
  {
    forall k :: k in a ==> k in b && a[k] == b[k]
  }

  /** The sessions table without the sessions of `userId`. */
  function SessionsWithout(sessions: map<Token, int>, userId: int): (r: map<Token, int>)
    ensures forall t :: t in r <==> t in sessions && sessions[t] != userId
    ensures SubMap(r, sessions)
  {
    map t | t in sessions && sessions[t] != userId :: sessions[t]
  }

  /** The memberships table without the rows of `userId`. */
  function MembersWithout(members: map<(int, int), string>, userId: int): (r: map<(int, int), string>)
    ensures forall k :: k in r <==> k in members && k.0 != userId
    ensures SubMap(r, members)
  {
    map k | k in members && k.0 != userId :: members[k]
  }

  /** The applications table without the applications made by `userId`. */
  function ApplicationsWithout(applications: map<int, Application>, userId: int): (r: map<int, Application>)
    ensures forall a :: a in r <==> a in applications && applications[a].applicantId != userId
    ensures SubMap(r, applications)
  {
    map a | a in applications && applications[a].applicantId != userId :: applications[a]
  }

  /** A (user, event) relation without the pairs of `userId`. */
  function PairsWithout(pairs: set<(int, int)>, userId: int): (r: set<(int, int)>)
    ensures forall p :: p in r <==> p in pairs && p.0 != userId
  {
    set p | p in pairs && p.0 != userId
  }

  /** The reset codes without those issued to `userId`. */
  function CodesWithout(resetCodes: map<string, int>, userId: int): (r: map<string, int>)
    ensures forall c :: c in r <==> c in resetCodes && resetCodes[c] != userId
    ensures SubMap(r, resetCodes)
  {
    map c | c in resetCodes && resetCodes[c] != userId :: resetCodes[c]
  }

  /** Deleting a user together with every row that refers to it keeps the references
      and uniqueness constraints that involve users. */
  lemma DropUserKeepsIntegrity(
    users: map<int, User>, nextUserId: int, sessions: map<Token, int>, societies: map<int, Society>,
    members: map<(int, int), string>, applications: map<int, Application>, events: map<int, Event>,
    attending: set<(int, int)>, attended: set<(int, int)>, resetCodes: map<string, int>, userId: int)
    requires IdsInRange(users, nextUserId) && EmailsUnique(users) && ZIdsUnique(users)
    requires SessionsRefUsers(sessions, users) && MembersWellFormed(members, users, societies)
    requires ApplicationsRefUsers(applications, users) && ResetCodesRefUsers(resetCodes, users)
    requires PairsRef(attending, users, events) && PairsRef(attended, users, events)
    ensures var rest := users - {userId};
      && IdsInRange(rest, nextUserId) && EmailsUnique(rest) && ZIdsUnique(rest)
      && SessionsRefUsers(SessionsWithout(sessions, userId), rest)
      && MembersWellFormed(MembersWithout(members, userId), rest, societies)
      && ApplicationsRefUsers(ApplicationsWithout(applications, userId), rest)
      && ResetCodesRefUsers(CodesWithout(resetCodes, userId), rest)
      && PairsRef(PairsWithout(attending, userId), rest, events)
      && PairsRef(PairsWithout(attended, userId), rest, events)
  {
  }

  /** The memberships table without the rows of society `societyId`. */
  function MembersOfSocietyWithout(members: map<(int, int), string>, societyId: int): (r: map<(int, int), string>)
    ensures forall k :: k in r <==> k in members && k.1 != societyId
    ensures SubMap(r, members)
  {
    map k | k in members && k.1 != societyId :: members[k]
  }

  /** The events table without the events of society `societyId`. */
  function EventsOfSocietyWithout(events: map<int, Event>, societyId: int): (r: map<int, Event>)
    ensures forall e :: e in r <==> e in events && events[e].societyId != societyId
    ensures SubMap(r, events)
  {
    map e | e in events && events[e].societyId != societyId :: events[e]
  }

  /** A (user, event) relation restricted to the events that remain. */
  function PairsOnEvents(pairs: set<(int, int)>, events: map<int, Event>): (r: set<(int, int)>)
    ensures forall p :: p in r <==> p in pairs && p.1 in events
  {
    set p | p in pairs && p.1 in events
  }

  /** The forms of the events that remain, in their original order. */
  function FormsOnEvents(forms: seq<Form>, events: map<int, Event>): (r: seq<Form>)
    ensures forall f :: f in r <==> f in forms && f.eventId in events
    ensures FormKeysDistinct(forms) ==> FormKeysDistinct(r)
  {
    if forms == [] then []
    else
      var rest := FormsOnEvents(forms[1..], events);
      if forms[0].eventId in events then
        var r := [forms[0]] + rest;
        assert FormKeysDistinct(forms) ==> FormKeysDistinct(r) by {
          if FormKeysDistinct(forms) {
            assert forall k :: 0 <= k < |forms[1..]| ==> FormKey(forms[0]) != FormKey(forms[1..][k]);
            forall i, j | 0 <= i < j < |r| ensures FormKey(r[i]) != FormKey(r[j]) {
              if i == 0 {
                assert r[j] == rest[j - 1] && rest[j - 1] in forms[1..];
              }
            }
          }
        }
        r
      else rest
  }

  /** Deleting a society together with its memberships and its events (and what refers
      to those events) keeps every reference that involves societies or events. */
  lemma DropSocietyKeepsIntegrity(
    users: map<int, User>, societies: map<int, Society>, nextSocietyId: int, nextEventId: int,
    members: map<(int, int), string>, events: map<int, Event>,
    attending: set<(int, int)>, attended: set<(int, int)>, forms: seq<Form>, societyId: int)
    requires IdsInRange(societies, nextSocietyId) && SocietyNamesUnique(societies) && IdsInRange(events, nextEventId)
    requires MembersWellFormed(members, users, societies) && EventsRefSocieties(events, societies)
    requires PairsRef(attending, users, events) && PairsRef(attended, users, events)
    requires FormsWellFormed(forms, events)
    ensures var rest := societies - {societyId};
      var events' := EventsOfSocietyWithout(events, societyId);
      && IdsInRange(rest, nextSocietyId) && SocietyNamesUnique(rest) && IdsInRange(events', nextEventId)
      && MembersWellFormed(MembersOfSocietyWithout(members, societyId), users, rest)
      && EventsRefSocieties(events', rest)
      && PairsRef(PairsOnEvents(attending, events'), users, events')
      && PairsRef(PairsOnEvents(attended, events'), users, events')
      && FormsWellFormed(FormsOnEvents(forms, events'), events')
  {
    var events' := EventsOfSocietyWithout(events, societyId);
    var forms' := FormsOnEvents(forms, events');
    assert forall i :: 0 <= i < |forms'| ==> forms'[i] in forms';
  }

  /** Deleting an event together with its attendance rows and forms keeps every
      reference that involves events. */
  lemma DropEventKeepsIntegrity(
    users: map<int, User>, societies: map<int, Society>, nextEventId: int, events: map<int, Event>,
    attending: set<(int, int)>, attended: set<(int, int)>, forms: seq<Form>, eventId: int)
    requires IdsInRange(events, nextEventId) && EventsRefSocieties(events, societies)
    requires PairsRef(attending, users, events) && PairsRef(attended, users, events)
    requires FormsWellFormed(forms, events)
    ensures var events' := events - {eventId};
      && IdsInRange(events', nextEventId) && EventsRefSocieties(events', societies)
      && PairsRef(PairsOnEvents(attending, events'), users, events')
      && PairsRef(PairsOnEvents(attended, events'), users, events')
      && FormsWellFormed(FormsOnEvents(forms, events'), events')
  {
    var events' := events - {eventId};
    var forms' := FormsOnEvents(forms, events');
    assert forall i :: 0 <= i < |forms'| ==> forms'[i] in forms';
  }

  class Store {
    var users: map<int, User>
    var nextUserId: int
    var sessions: map<Token, int>
    var societies: map<int, Society>
    var nextSocietyId: int
    var members: map<(int, int), string>
    var applications: map<int, Application>
    var nextApplicationId: int
    var events: map<int, Event>
    var nextEventId: int
    var attending: set<(int, int)>
    var attended: set<(int, int)>
    var forms: seq<Form>
    var resetCodes: map<string, int>

    ghost predicate Valid()
      reads this
    {
      && IdsInRange(users, nextUserId)
      && IdsInRange(societies, nextSocietyId)
      && IdsInRange(applications, nextApplicationId)
      && IdsInRange(events, nextEventId)
      && SessionsRefUsers(sessions, users)
      && EmailsUnique(users)
      && ZIdsUnique(users)
      && SocietyNamesUnique(societies)
      && MembersWellFormed(members, users, societies)
      && ApplicationsRefUsers(applications, users)
      && EventsRefSocieties(events, societies)
      && PairsRef(attending, users, events)
      && PairsRef(attended, users, events)
      && FormsWellFormed(forms, events)
      && ResetCodesRefUsers(resetCodes, users)
    }

    constructor ()
      ensures Valid()
      ensures users == map[] && sessions == map[] && societies == map[] && members == map[]
      ensures applications == map[] && events == map[] && forms == [] && resetCodes == map[]
      ensures attending == {} && attended == {}
    {
      users, nextUserId := map[], 1;
      sessions := map[];
      societies, nextSocietyId := map[], 1;
      members := map[];
      applications, nextApplicationId := map[], 1;
      events, nextEventId := map[], 1;
      attending, attended := {}, {};
      forms := [];
      resetCodes := map[];
    }

    /** Deletes a user together with the sessions, memberships, applications, attendance
        rows and reset codes that refer to it. */
    method DeleteUser(userId: int)
      requires Valid()
      modifies this`users, this`sessions, this`members, this`applications, this`attending, this`attended,
               this`resetCodes
      ensures Valid()
      ensures users == old(users) - {userId}
      ensures sessions == SessionsWithout(old(sessions), userId)
      ensures members == MembersWithout(old(members), userId)
      ensures applications == ApplicationsWithout(old(applications), userId)
      ensures attending == PairsWithout(old(attending), userId)
      ensures attended == PairsWithout(old(attended), userId)
      ensures resetCodes == CodesWithout(old(resetCodes), userId)
    {
      DropUserKeepsIntegrity(users, nextUserId, sessions, societies, members, applications,
                             events, attending, attended, resetCodes, userId);
      users, sessions := users - {userId}, SessionsWithout(sessions, userId);
      members, applications := MembersWithout(members, userId), ApplicationsWithout(applications, userId);
      attending, attended := PairsWithout(attending, userId), PairsWithout(attended, userId);
      resetCodes := CodesWithout(resetCodes, userId);
    }

    /** Deletes a society together with its memberships, its events, and the attendance
        rows and forms of those events. */
    method DeleteSociety(societyId: int)
      requires Valid()
      modifies this`societies, this`members, this`events, this`attending, this`attended, this`forms
      ensures Valid()
      ensures societies == old(societies) - {societyId}
      ensures members == MembersOfSocietyWithout(old(members), societyId)
      ensures events == EventsOfSocietyWithout(old(events), societyId)
      ensures attending == PairsOnEvents(old(attending), events)
      ensures attended == PairsOnEvents(old(attended), events)
      ensures forms == FormsOnEvents(old(forms), events)
    {
      DropSocietyKeepsIntegrity(users, societies, nextSocietyId, nextEventId, members, events,
                                attending, attended, forms, societyId);
      var events' := EventsOfSocietyWithout(events, societyId);
      societies, members, events := societies - {societyId}, MembersOfSocietyWithout(members, societyId), events';
      attending, attended := PairsOnEvents(attending, events'), PairsOnEvents(attended, events');
      forms := FormsOnEvents(forms, events');
    }

    /** Deletes an event together with its attendance rows and forms. */
    method DeleteEvent(eventId: int)
      requires Valid()
      modifies this`events, this`attending, this`attended, this`forms
      ensures Valid()
      ensures events == old(events) - {eventId}
      ensures attending == PairsOnEvents(old(attending), events)
      ensures attended == PairsOnEvents(old(attended), events)
      ensures forms == FormsOnEvents(old(forms), events)
    {
      DropEventKeepsIntegrity(users, societies, nextEventId, events, attending, attended, forms, eventId);
      var events' := events - {eventId};
      events := events';
      attending, attended := PairsOnEvents(attending, events'), PairsOnEvents(attended, events');
      forms := FormsOnEvents(forms, events');
    }
  }
}
