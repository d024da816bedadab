/** Event operations (backend/src/event.ts): creating, editing and deleting events,
    attendance, the filtered event listing, attendance forms and their CSV export. */
module Events {
  import opened Types
  import opened Text
  import opened Db
  import opened Utils
  import opened Listing
  import Societies

  /** `createEvent`'s checks; on success the result is the new event's id. Site admins
      get no bypass: only an admin or moderator of the society may create. */
  function CreateOutcome(
    sessions: map<Token, int>, users: map<int, User>, societies: map<int, Society>,
    members: map<(int, int), string>, nextEventId: int, token: Token, societyId: int): (r: Result<int>)
    requires SessionsRefUsers(sessions, users)
    ensures token !in sessions ==> r == Err(InvalidToken)
    ensures token in sessions && societyId !in societies ==> r == Err(Societies.SocietyDoesNotExist)
    ensures r.Err? && r.error.kind == Forbidden ==> r.error == InsufficientPermissions
    ensures r.Ok? <==>
      token in sessions && societyId in societies && IsAdminOrModerator(members, sessions[token], societyId)
    ensures token in sessions && societyId in societies && !IsAdminOrModerator(members, sessions[token], societyId)
      ==> r == Err(InsufficientPermissions)
    ensures r.Ok? ==> r.value == nextEventId
  {
    match ValidateSession(sessions, users, token)
    case Err(e) => Err(e)
    case Ok(actor) =>
      if societyId !in societies then Err(Societies.SocietyDoesNotExist)
      else if !IsAdminOrModerator(members, actor.userId, societyId) then Err(InsufficientPermissions)
      else Ok(nextEventId)
  }

  /** `createEvent`. */
  method CreateEvent(db: Store, token: Token, societyId: int, name: string, description: string, time: int, location: string)
    returns (r: Result<int>)
    requires db.Valid()
    modifies db`events, db`nextEventId
    ensures db.Valid()
    ensures r == CreateOutcome(old(db.sessions), old(db.users), old(db.societies), old(db.members), old(db.nextEventId),
                               token, societyId)
    ensures r.Ok? ==>
      && r.value !in old(db.events)
      && db.events == old(db.events)[r.value := Event(societyId, name, description, time, location)]
      && db.nextEventId == old(db.nextEventId) + 1
    ensures r.Err? ==> db.events == old(db.events) && db.nextEventId == old(db.nextEventId)
  {
    r := CreateOutcome(db.sessions, db.users, db.societies, db.members, db.nextEventId, token, societyId);
    if r.Ok? {
      db.events := db.events[db.nextEventId := Event(societyId, name, description, time, location)];
      db.nextEventId := db.nextEventId + 1;
    }
  }

  /** A site admin with no role in the society may not create its events. */
  lemma SiteAdminCannotCreateWithoutRole(
    sessions: map<Token, int>, users: map<int, User>, societies: map<int, Society>,
    members: map<(int, int), string>, nextEventId: int, token: Token, societyId: int)
    requires SessionsRefUsers(sessions, users)
    requires token in sessions && users[sessions[token]].isAdmin && societyId in societies
    requires (sessions[token], societyId) !in members
    ensures CreateOutcome(sessions, users, societies, members, nextEventId, token, societyId) == Err(InsufficientPermissions)
  {
  }

  const InvalidEventId: HttpError := HttpError(BadRequest, "Invalid eventId")

  /** `editEvent`'s checks: the event, then the same gate as creation, again without a
      site-admin bypass. */
  function EditOutcome(
    sessions: map<Token, int>, users: map<int, User>, events: map<int, Event>,
    members: map<(int, int), string>, token: Token, eventId: int): (r: Result<()>)
    requires SessionsRefUsers(sessions, users)
    ensures token !in sessions ==> r == Err(InvalidToken)
    ensures token in sessions && eventId !in events ==> r == Err(InvalidEventId)
    ensures r.Err? && r.error.kind == Forbidden ==> r.error == InsufficientPermissions
    ensures r.Ok? <==>
      && token in sessions && eventId in events
      && IsAdminOrModerator(members, sessions[token], events[eventId].societyId)
    ensures token in sessions && eventId in events
      && !IsAdminOrModerator(members, sessions[token], events[eventId].societyId)
      ==> r == Err(InsufficientPermissions)
  {
    match ValidateSession(sessions, users, token)
    case Err(e) => Err(e)
    case Ok(actor) =>
      if eventId !in events then Err(InvalidEventId)
      else if !IsAdminOrModerator(members, actor.userId, events[eventId].societyId) then Err(InsufficientPermissions)
      else Ok(())
  }

  /** `editEvent`: name, description, time and location are overwritten; the society stays. */
  method EditEvent(db: Store, token: Token, eventId: int, name: string, description: string, time: int, location: string)
    returns (r: Result<()>)
    requires db.Valid()
    modifies db`events
    ensures db.Valid()
    ensures r == EditOutcome(old(db.sessions), old(db.users), old(db.events), old(db.members), token, eventId)
    ensures r.Ok? ==>
      db.events == old(db.events)[eventId := Event(old(db.events)[eventId].societyId, name, description, time, location)]
    ensures r.Err? ==> db.events == old(db.events)
  {
    r := EditOutcome(db.sessions, db.users, db.events, db.members, token, eventId);
    if r.Ok? {
      db.events := db.events[eventId := Event(db.events[eventId].societyId, name, description, time, location)];
    }
  }

  /** `deleteEvent`'s checks: unlike creation and editing, a site admin passes. */
  function DeleteOutcome(
    sessions: map<Token, int>, users: map<int, User>, events: map<int, Event>,
    members: map<(int, int), string>, token: Token, eventId: int): (r: Result<()>)
    requires SessionsRefUsers(sessions, users)
    ensures token !in sessions ==> r == Err(InvalidToken)
    ensures token in sessions && eventId !in events ==> r == Err(InvalidEventId)
    ensures r.Err? && r.error.kind == Forbidden ==> r.error == InsufficientPermissions
    ensures r.Ok? <==>
      && token in sessions && eventId in events
      && (users[sessions[token]].isAdmin || IsAdminOrModerator(members, sessions[token], events[eventId].societyId))
    ensures token in sessions && eventId in events && !users[sessions[token]].isAdmin
      && !IsAdminOrModerator(members, sessions[token], events[eventId].societyId)
      ==> r == Err(InsufficientPermissions)
  {
    match ValidateSession(sessions, users, token)
    case Err(e) => Err(e)
    case Ok(actor) =>
      if eventId !in events then Err(InvalidEventId)
      else if !(actor.user.isAdmin || IsAdminOrModerator(members, actor.userId, events[eventId].societyId)) then
        Err(InsufficientPermissions)
      else Ok(())
  }

  /** A site admin with no role in the society may delete its event but not edit it. */
  lemma SiteAdminMayDeleteButNotEdit(
    sessions: map<Token, int>, users: map<int, User>, events: map<int, Event>,
    members: map<(int, int), string>, token: Token, eventId: int)
    requires SessionsRefUsers(sessions, users)
    requires token in sessions && users[sessions[token]].isAdmin && eventId in events
    requires (sessions[token], events[eventId].societyId) !in members
    ensures DeleteOutcome(sessions, users, events, members, token, eventId).Ok?
    ensures EditOutcome(sessions, users, events, members, token, eventId) == Err(InsufficientPermissions)
  {
  }

  /** `deleteEvent`: removes the event. Its attendance rows and forms go with it, as the
      store's foreign keys demand; the contract promises only that no other table gains
      or alters a row, since the schema's cascade rules are not part of this model. */
  method DeleteEvent(db: Store, token: Token, eventId: int) returns (r: Result<()>)
    requires db.Valid()
    modifies db`events, db`attending, db`attended, db`forms
    ensures db.Valid()
    ensures r == DeleteOutcome(old(db.sessions), old(db.users), old(db.events), old(db.members), token, eventId)
    ensures r.Ok? ==> db.events == old(db.events) - {eventId}
    ensures db.attending <= old(db.attending) && db.attended <= old(db.attended)
    ensures forall f :: f in db.forms ==> f in old(db.forms)
    ensures r.Err? ==> db.events == old(db.events) && db.attending == old(db.attending) && db.attended == old(db.attended)
                       && db.forms == old(db.forms)
  {
    r := DeleteOutcome(db.sessions, db.users, db.events, db.members, token, eventId);
    if r.Ok? {
      db.DeleteEvent(eventId);
    }
  }

  const EventIdIsInvalid: HttpError := HttpError(BadRequest, "eventId is invalid")

  /** `getEvent`: the stored event, or 400 "eventId is invalid". */
  function GetEvent(events: map<int, Event>, eventId: int): (r: Result<EventInfo>)
    ensures r.Ok? <==> eventId in events
    ensures r.Err? ==> r.error == EventIdIsInvalid
    ensures r.Ok? ==> r.value.eventId == eventId && r.value == EventInfoOf(eventId, events[eventId])
  {
    if eventId !in events then Err(EventIdIsInvalid) else Ok(EventInfoOf(eventId, events[eventId]))
  }

  /** The checks `attendEvent` and `eventStatus` share: a session, then the event. */
  function AttendOutcome(sessions: map<Token, int>, users: map<int, User>, events: map<int, Event>,
                         token: Token, eventId: int): (r: Result<int>)
    requires SessionsRefUsers(sessions, users)
    ensures token !in sessions ==> r == Err(InvalidToken)
    ensures token in sessions && r.Err? ==> r.error == EventIdIsInvalid
    ensures r.Ok? <==> token in sessions && eventId in events
    ensures r.Ok? ==> r.value == sessions[token]
  {
    match ValidateSession(sessions, users, token)
    case Err(e) => Err(e)
    case Ok(actor) => if eventId !in events then Err(EventIdIsInvalid) else Ok(actor.userId)
  }

  /** `attendEvent`: the attending row is upserted, so repeating it changes nothing. */
  method AttendEvent(db: Store, token: Token, eventId: int) returns (r: Result<()>)
    requires db.Valid()
    modifies db`attending
    ensures db.Valid()
    ensures var o := AttendOutcome(old(db.sessions), old(db.users), old(db.events), token, eventId);
      && (r.Ok? <==> o.Ok?) && (o.Err? ==> r == Err(o.error))
      && (o.Ok? ==> db.attending == old(db.attending) + {(o.value, eventId)})
      && (o.Err? ==> db.attending == old(db.attending))
  {
    var o := AttendOutcome(db.sessions, db.users, db.events, token, eventId);
    if o.Err? {
      return Err(o.error);
    }
    db.attending := db.attending + {(o.value, eventId)};
    r := Ok(());
  }

  /** `eventStatus`: whether the actor has an attending row for the event. */
  function EventStatus(sessions: map<Token, int>, users: map<int, User>, events: map<int, Event>,
                       attending: set<(int, int)>, token: Token, eventId: int): (r: Result<bool>)
    requires SessionsRefUsers(sessions, users)
    ensures r.Ok? <==> token in sessions && eventId in events
    ensures r.Err? ==> r.error == AttendOutcome(sessions, users, events, token, eventId).error
    ensures r.Ok? ==> (r.value <==> (sessions[token], eventId) in attending)
  {
    match AttendOutcome(sessions, users, events, token, eventId)
    case Err(e) => Err(e)
    case Ok(userId) => Ok((userId, eventId) in attending)
  }

  /** Attending twice leaves one row, and the status then reports attendance. */
  lemma AttendIdempotent(sessions: map<Token, int>, users: map<int, User>, events: map<int, Event>,
                         attending: set<(int, int)>, token: Token, eventId: int)
    requires SessionsRefUsers(sessions, users)
    requires token in sessions && eventId in events
    ensures var once := attending + {(sessions[token], eventId)};
      && once + {(sessions[token], eventId)} == once
      && EventStatus(sessions, users, events, once, token, eventId) == Ok(true)
  {
  }

  const NotAttending: HttpError := HttpError(BadRequest, "User is not attending")

  /** `unattendEvent`'s checks: a session, the event, then an attending row. */
  function UnattendOutcome(sessions: map<Token, int>, users: map<int, User>, events: map<int, Event>,
                           attending: set<(int, int)>, token: Token, eventId: int): (r: Result<int>)
    requires SessionsRefUsers(sessions, users)
    ensures token !in sessions ==> r == Err(InvalidToken)
    ensures token in sessions && eventId !in events ==> r == Err(EventIdIsInvalid)
    ensures token in sessions && eventId in events && r.Err? ==> r.error == NotAttending
    ensures r.Ok? <==> token in sessions && eventId in events && (sessions[token], eventId) in attending
    ensures r.Ok? ==> r.value == sessions[token]
  {
    match AttendOutcome(sessions, users, events, token, eventId)
    case Err(e) => Err(e)
    case Ok(userId) => if (userId, eventId) !in attending then Err(NotAttending) else Ok(userId)
  }

  /** `unattendEvent`: exactly that attending row is deleted. */
  method UnattendEvent(db: Store, token: Token, eventId: int) returns (r: Result<()>)
    requires db.Valid()
    modifies db`attending
    ensures db.Valid()
    ensures var o := UnattendOutcome(old(db.sessions), old(db.users), old(db.events), old(db.attending), token, eventId);
      && (r.Ok? <==> o.Ok?) && (o.Err? ==> r == Err(o.error))
      && (o.Ok? ==> db.attending == old(db.attending) - {(o.value, eventId)})
      && (o.Err? ==> db.attending == old(db.attending))
  {
    var o := UnattendOutcome(db.sessions, db.users, db.events, db.attending, token, eventId);
    if o.Err? {
      return Err(o.error);
    }
    db.attending := db.attending - {(o.value, eventId)};
    r := Ok(());
  }

  /** Attending and then unattending restores the rows, and the status reports false. */
  lemma AttendThenUnattend(sessions: map<Token, int>, users: map<int, User>, events: map<int, Event>,
                           attending: set<(int, int)>, token: Token, eventId: int)
    requires SessionsRefUsers(sessions, users)
    requires token in sessions && eventId in events && (sessions[token], eventId) !in attending
    ensures var after := attending + {(sessions[token], eventId)};
      && UnattendOutcome(sessions, users, events, after, token, eventId).Ok?
      && after - {(sessions[token], eventId)} == attending
      && EventStatus(sessions, users, events, after - {(sessions[token], eventId)}, token, eventId) == Ok(false)
  {
    var after := attending + {(sessions[token], eventId)};
    assert after - {(sessions[token], eventId)} == attending;
  }

  /** The `AND` of the filters `getEvents` builds; an absent filter is not added. */
  predicate EventMatches(e: Event, search: string, timeStart: Option<int>, timeEnd: Option<int>)
  {
    && (search == "" || Contains(e.name, search) || Contains(e.description, search) || Contains(e.location, search))
    && (timeStart.Some? ==> e.time >= timeStart.value)
    && (timeEnd.Some? ==> e.time <= timeEnd.value)
  }

  /** The unpaginated result of `getEvents`: exactly the matching events, in order. */
  function EventSearch(events: map<int, Event>, nextEventId: int, search: string,
                       timeStart: Option<int>, timeEnd: Option<int>): (r: seq<EventInfo>)
    requires IdsInRange(events, nextEventId)
    ensures EventsInOrder(r, events)
    ensures forall i :: 0 <= i < |r| ==> EventMatches(events[r[i].eventId], search, timeStart, timeEnd)
    ensures forall id :: id in EventIds(r) <==> id in events && EventMatches(events[id], search, timeStart, timeEnd)
  {
    var ids := SelectOrdered(IdsBelow(events, nextEventId),
                             id => id in events && EventMatches(events[id], search, timeStart, timeEnd),
                             id => EventKeyIn(events, id));
    var infos := EventInfosOf(events, ids);
    assert forall i :: 0 <= i < |infos| ==> infos[i].eventId == ids[i] && ids[i] in ids;
    infos
  }

  /** `getEvents`: a window of the search result, so every entry matches and the order is kept. */
  function GetEvents(events: map<int, Event>, nextEventId: int, search: string,
                     timeStart: Option<int>, timeEnd: Option<int>, start: Option<int>, end: Option<int>)
    : (r: seq<EventInfo>)
    requires IdsInRange(events, nextEventId)
    ensures EventsInOrder(r, events)
    ensures forall i :: 0 <= i < |r| ==> EventMatches(events[r[i].eventId], search, timeStart, timeEnd)
    ensures !Paginated(start, end) ==> r == EventSearch(events, nextEventId, search, timeStart, timeEnd)
    ensures var all := EventSearch(events, nextEventId, search, timeStart, timeEnd);
      exists lo, hi :: 0 <= lo <= hi <= |all| && r == all[lo..hi]
  {
    var all := EventSearch(events, nextEventId, search, timeStart, timeEnd);
    var r := Paginate(all, start, end);
    PageOfEvents(all, PageLo(|all|, start, end), PageHi(|all|, start, end), events, search, timeStart, timeEnd);
    r
  }

  /** A contiguous window of an ordered list of matching events is one too. */
  lemma PageOfEvents(all: seq<EventInfo>, lo: nat, hi: nat, events: map<int, Event>,
                     search: string, timeStart: Option<int>, timeEnd: Option<int>)
    requires lo <= hi <= |all|
    requires EventsInOrder(all, events)
    requires forall i :: 0 <= i < |all| ==> EventMatches(events[all[i].eventId], search, timeStart, timeEnd)
    ensures EventsInOrder(all[lo..hi], events)
    ensures forall i :: 0 <= i < hi - lo ==> EventMatches(events[all[lo..hi][i].eventId], search, timeStart, timeEnd)
  {
    var page := all[lo..hi];
    assert forall i :: 0 <= i < |page| ==> page[i] == all[lo + i];
  }

  /** A time window with its start after its end lets no event through. */
  lemma EmptyTimeWindow(e: Event, search: string, timeStart: int, timeEnd: int)
    requires timeStart > timeEnd
    ensures !EventMatches(e, search, Some(timeStart), Some(timeEnd))
  {
  }

  const InvalidEmail: HttpError := HttpError(BadRequest, "Invalid email")
  /** The form upsert's foreign-key failure for an unknown event, which no handler catches. */
  const FormEventMissing: HttpError := HttpError(ServerError, "Foreign key constraint failed on the field: `eventId`")

  /** The form upsert keyed on (eventId, zId, email): an existing form is left as it is. */
  function UpsertForm(forms: seq<Form>, f: Form): (r: seq<Form>)
    ensures (exists i :: 0 <= i < |forms| && FormKey(forms[i]) == FormKey(f)) ==> r == forms
    ensures (forall i :: 0 <= i < |forms| ==> FormKey(forms[i]) != FormKey(f)) ==> r == forms + [f]
    ensures FormKeysDistinct(forms) ==> FormKeysDistinct(r)
  {
    if exists i :: 0 <= i < |forms| && FormKey(forms[i]) == FormKey(f) then forms else forms + [f]
  }

  /** Submitting the same form again adds nothing. */
  lemma {:induction false} UpsertFormIdempotent(forms: seq<Form>, f: Form)
    ensures UpsertForm(UpsertForm(forms, f), f) == UpsertForm(forms, f)
  {
    var once := UpsertForm(forms, f);
    assert FormKey(once[|once| - 1]) == FormKey(f) || exists i :: 0 <= i < |forms| && FormKey(forms[i]) == FormKey(f);
  }

  /** `fillForm`'s outcome: a bad email is refused before anything is written; an
      unknown event makes the upsert fail. */
  function FillFormOutcome(events: map<int, Event>, eventId: int, email: string): (r: Result<()>)
    ensures r.Ok? <==> IsEmail(email) && eventId in events
    ensures !IsEmail(email) ==> r == Err(InvalidEmail)
    ensures IsEmail(email) && r.Err? ==> r.error == FormEventMissing
  {
    if !IsEmail(email) then Err(InvalidEmail)
    else if eventId !in events then Err(FormEventMissing)
    else Ok(())
  }

  /** The attended row for the user a form names, when there is one. */
  function RecordAttended(attended: set<(int, int)>, user: Option<int>, eventId: int): (r: set<(int, int)>)
    ensures user.None? ==> r == attended
    ensures user.Some? ==> r == attended + {(user.value, eventId)}
  {
    match user
    case None => attended
    case Some(userId) => attended + {(userId, eventId)}
  }

  /** `fillForm`: upserts the form, and records attendance for the user whose zId
      matches, if any; an unmatched zId is silently ignored. */
  method FillForm(db: Store, eventId: int, nameFirst: string, nameLast: string, zId: string, email: string)
    returns (r: Result<()>)
    requires db.Valid()
    modifies db`forms, db`attended
    ensures db.Valid()
    ensures r == FillFormOutcome(old(db.events), eventId, email)
    ensures r.Ok? ==> db.forms == UpsertForm(old(db.forms), Form(eventId, zId, email, nameFirst, nameLast))
    ensures r.Ok? ==> db.attended == RecordAttended(old(db.attended), UserWithZId(old(db.users), zId), eventId)
    ensures r.Err? ==> db.forms == old(db.forms) && db.attended == old(db.attended)
  {
    r := FillFormOutcome(db.events, eventId, email);
    if r.Err? {
      return;
    }
    var f := Form(eventId, zId, email, nameFirst, nameLast);
    var forms := UpsertForm(db.forms, f);
    assert forall i :: 0 <= i < |forms| ==> forms[i] == f || forms[i] in db.forms;
    db.forms := forms;
    var u := UserWithZId(db.users, zId);
    if u.Some? {
      db.attended := db.attended + {(u.value, eventId)};
    }
  }

  const EventIdIsInvalidForCsv: HttpError := HttpError(BadRequest, "EventId is invalid")
  const InvalidPermissions: HttpError := HttpError(Forbidden, "Invalid permissions")

  /** `generateCSV`'s gate: a site admin, or an admin or moderator of the event's society. */
  function CsvOutcome(
    sessions: map<Token, int>, users: map<int, User>, events: map<int, Event>,
    members: map<(int, int), string>, token: Token, eventId: int): (r: Result<()>)
    requires SessionsRefUsers(sessions, users)
    ensures token !in sessions ==> r == Err(InvalidToken)
    ensures token in sessions && eventId !in events ==> r == Err(EventIdIsInvalidForCsv)
    ensures r.Err? && r.error.kind == Forbidden ==> r.error == InvalidPermissions
    ensures r.Ok? <==>
      && token in sessions && eventId in events
      && (users[sessions[token]].isAdmin || IsAdminOrModerator(members, sessions[token], events[eventId].societyId))
    ensures token in sessions && eventId in events && !users[sessions[token]].isAdmin
      && !IsAdminOrModerator(members, sessions[token], events[eventId].societyId)
      ==> r == Err(InvalidPermissions)
  {
    match ValidateSession(sessions, users, token)
    case Err(e) => Err(e)
    case Ok(actor) =>
      if eventId !in events then Err(EventIdIsInvalidForCsv)
      else if !actor.user.isAdmin && !IsAdminOrModerator(members, actor.userId, events[eventId].societyId) then
        Err(InvalidPermissions)
      else Ok(())
  }

  /** The forms of one event, in submission order. */
  function FormsOfEvent(forms: seq<Form>, eventId: int): (r: seq<Form>)
    ensures forall f :: f in r <==> f in forms && f.eventId == eventId
    ensures |r| <= |forms|
    ensures Distinct(forms) ==> Distinct(r)
  {
    if forms == [] then []
    else
      var rest := FormsOfEvent(forms[1..], eventId);
      if forms[0].eventId == eventId then
        var r := [forms[0]] + rest;
        assert Distinct(forms) ==> Distinct(r) by {
          if Distinct(forms) {
            assert forall k :: 0 <= k < |forms[1..]| ==> forms[0] != forms[1..][k];
            forall i, j | 0 <= i < j < |r| ensures r[i] != r[j] {
              if i == 0 {
                assert r[j] == rest[j - 1] && rest[j - 1] in forms[1..];
              }
            }
          }
        }
        r
      else rest
  }

  /** A single form is kept exactly when it belongs to the event. */
  lemma FormsOfEventSingle(f: Form, eventId: int)
    ensures FormsOfEvent([f], eventId) == if f.eventId == eventId then [f] else []
  {
    assert [f][1..] == [];
  }

  /** Selecting an event's forms commutes with concatenation, so submission order is kept. */
  lemma {:induction false} FormsOfEventAppend(a: seq<Form>, b: seq<Form>, eventId: int)
    ensures FormsOfEvent(a + b, eventId) == FormsOfEvent(a, eventId) + FormsOfEvent(b, eventId)
    decreases |a|
  {
    if a != [] {
      assert (a + b)[1..] == a[1..] + b;
      FormsOfEventAppend(a[1..], b, eventId);
    } else {
      assert a + b == b;
    }
  }

  /** One CSV line: `zId,email,nameFirst,nameLast`. */
  function CsvLine(f: Form): string
  {
    Join([f.zId, f.email, f.nameFirst, f.nameLast], ',')
  }

  /** The CSV text: one line per form, joined with newlines. */
  function CsvText(forms: seq<Form>): string
  {
    Join(seq(|forms|, i requires 0 <= i < |forms| => CsvLine(forms[i])), '\n')
  }

  /** `generateCSV`: the text written for the event, once the gate passes. */
  function GenerateCsv(
    sessions: map<Token, int>, users: map<int, User>, events: map<int, Event>,
    members: map<(int, int), string>, forms: seq<Form>, token: Token, eventId: int): (r: Result<string>)
    requires SessionsRefUsers(sessions, users)
    ensures r.Err? <==> CsvOutcome(sessions, users, events, members, token, eventId).Err?
    ensures r.Err? ==> r.error == CsvOutcome(sessions, users, events, members, token, eventId).error
    ensures r.Ok? ==> r.value == CsvText(FormsOfEvent(forms, eventId))
    ensures r.Ok? && FormsOfEvent(forms, eventId) == [] ==> r.value == ""
  {
    match CsvOutcome(sessions, users, events, members, token, eventId)
    case Err(e) => Err(e)
    case Ok(_) => Ok(CsvText(FormsOfEvent(forms, eventId)))
  }

  /** No field holds a comma or a newline. */
  predicate PlainForm(f: Form)
  {
    && Free(f.zId, ',') && Free(f.email, ',') && Free(f.nameFirst, ',') && Free(f.nameLast, ',')
    && Free(f.zId, '\n') && Free(f.email, '\n') && Free(f.nameFirst, '\n') && Free(f.nameLast, '\n')
  }

  /** A line splits back into its four fields. */
  lemma CsvLineRoundTrip(f: Form)
    requires PlainForm(f)
    ensures Split(CsvLine(f), ',') == [f.zId, f.email, f.nameFirst, f.nameLast]
  {
    SplitJoin([f.zId, f.email, f.nameFirst, f.nameLast], ',');
  }

  lemma {:induction false} JoinFree(parts: seq<string>, sep: char, c: char)
    requires c != sep
    requires forall k :: 0 <= k < |parts| ==> Free(parts[k], c)
    ensures Free(Join(parts, sep), c)
    decreases |parts|
  {
    if |parts| > 1 {
      JoinFree(parts[1..], sep, c);
    }
  }

  /** The text splits back into one line per form, and each line into that form's fields. */
  lemma CsvTextRoundTrip(forms: seq<Form>)
    requires |forms| >= 1
    requires forall i :: 0 <= i < |forms| ==> PlainForm(forms[i])
    ensures |Split(CsvText(forms), '\n')| == |forms|
    ensures forall i :: 0 <= i < |forms| ==>
      Split(Split(CsvText(forms), '\n')[i], ',') == [forms[i].zId, forms[i].email, forms[i].nameFirst, forms[i].nameLast]
  {
    var lines := seq(|forms|, i requires 0 <= i < |forms| => CsvLine(forms[i]));
    forall k | 0 <= k < |lines| ensures Free(lines[k], '\n') {
      var f := forms[k];
      JoinFree([f.zId, f.email, f.nameFirst, f.nameLast], ',', '\n');
    }
    SplitJoin(lines, '\n');
    forall i | 0 <= i < |forms| ensures Split(lines[i], ',') == [forms[i].zId, forms[i].email, forms[i].nameFirst, forms[i].nameLast] {
      CsvLineRoundTrip(forms[i]);
    }
  }

  /** The exported text splits back into one line per form of the event, in submission
      order, and each line into that form's fields. */
  lemma GenerateCsvSplitsBack(
    sessions: map<Token, int>, users: map<int, User>, events: map<int, Event>,
    members: map<(int, int), string>, forms: seq<Form>, token: Token, eventId: int)
    requires SessionsRefUsers(sessions, users)
    requires GenerateCsv(sessions, users, events, members, forms, token, eventId).Ok?
    requires |FormsOfEvent(forms, eventId)| >= 1
    requires forall f :: f in forms ==> PlainForm(f)
    ensures var text := GenerateCsv(sessions, users, events, members, forms, token, eventId).value;
      var mine := FormsOfEvent(forms, eventId);
      && |Split(text, '\n')| == |mine|
      && forall i :: 0 <= i < |mine| ==>
           Split(Split(text, '\n')[i], ',') == [mine[i].zId, mine[i].email, mine[i].nameFirst, mine[i].nameLast]
  {
    var mine := FormsOfEvent(forms, eventId);
    assert forall i :: 0 <= i < |mine| ==> mine[i] in mine;
    CsvTextRoundTrip(mine);
  }
}
