# Spark backend core in Dafny

Spark is a society-management service.
- Students register and log in with their zId and email.
- They apply to found societies, which a site admin approves or denies.
- They join societies, and hold ranked society roles: admin, moderator or member.
- Society staff create events that users mark as attending, and attendance forms are exported as CSV.
- A password is reset with an emailed code.

This project models the backend's request handlers as operations on one relational store and proves what each handler promises:
- the order of its checks;
- the exact error for each failure;
- the rows it writes.

## Layout

- `types.dfy`:
  - entities: User, Society, Application, Event, Form;
  - HTTP errors and `Result`;
  - role strings;
  - the password hash stand-in.
- `text.dfy`:
  - the validators' regular expressions as predicates;
  - ASCII `toLowerCase`;
  - substring search (`contains`) and code-point string order;
  - `join` and `split` with a round-trip lemma;
  - fresh-string existence.
- `store.dfy`:
  - class `Db.Store`, holding every table as a map, set or sequence with its autoincrement counter;
  - `Valid()`, the schema's foreign-key and uniqueness constraints;
  - deleting a user, society or event together with the rows that refer to it.
- `listing.dfy`:
  - `findMany` order, meaning id order, or an `orderBy` on (time, name, description, id);
  - filtering;
  - `Array.prototype.slice` pagination.
- `utils.dfy`: `validateSession`, `validateSocietyName` and `webcalPath`.
- `perm.dfy`, `admin.dfy`, `society.dfy`, `event.dfy`, `auth.dfy`, `reset.dfy` and `profile.dfy`: one module per handler file.
  - Each check sequence is a pure `…Outcome` function, which states the check order and the errors.
  - Each state change is a method on the store. It returns that outcome and states the new tables. It keeps `Valid()`.
- `user_types.dfy`: the client's permission enums and their conversions.

Schema facts the source relies on but does not show are stated as assumptions:
- A new membership row has role `member`, the column's default (`Societies.JoinEffect`).
- A new application has status `pending` (`Societies.SocietyApply`).
- A new society's `photoURL` is copied from the application, and an application's is the column default (`None`).
- `findMany` without `orderBy` returns rows in ascending id order.
- The membership, attending and attended tables have no id column; their key is the composite (user, society) or (user, event). A `findMany` over one of them, filtered on one half of the key, returns rows in ascending order of the other half: user id for a society's members (`Societies.MemberRows`), society id for a user's societies (`Profiles.SocietiesWithRole`, `Profiles.ProfileSocieties`) and event id for a user's events (`Profiles.EventsOfUser`).
- Text columns compare by code point (`Listing.KeyLt`).

## Model

| member | source | states |
|---|---|---|
| Text.ToLower | backend/src/auth.ts:34-35 | lower-casing keeps the length and maps every ASCII upper-case letter to its lower case (non-ASCII characters are kept as they are) |
| Text.ToLowerIdempotent | backend/src/auth.ts:34-41 | lower-casing twice is lower-casing once |
| Text.ToLowerKeepsNameText | backend/src/auth.ts:20-35 | a name that passes `^[a-zA-Z ]+$` still passes after it is lower-cased for storage |
| Text.Contains | backend/src/event.ts:306-308 | `contains` holds exactly when the needle occurs at some offset of the text |
| Text.ContainsEmpty | backend/src/society.ts:206-214 | the empty search string matches every text |
| Text.StrLtTransitive | backend/src/event.ts:322-330 | the code-point order on text columns is transitive |
| Text.StrLtTrichotomy | backend/src/event.ts:322-330 | any two texts are equal or ordered one way |
| Text.SplitJoin | backend/src/event.ts:441-443 | joining separator-free parts and splitting on the separator gives the parts back |
| Text.FreshStringExists | backend/src/auth.ts:58-60 | a session or token id not yet in use always exists |
| Listing.IdsBelow | backend/src/admin.ts:16-25 | a `findMany` without `orderBy` lists ids in strictly increasing order, exactly those of the table |
| Listing.IdsBelowListsEachOnce | backend/src/admin.ts:16-25 | with every id in range, the listing holds each row of the table once |
| Listing.Filter | backend/src/event.ts:301-323 | the rows that pass a `where` clause, in their order; exactly the rows satisfying it |
| Listing.InsertSorted | backend/src/event.ts:322-330 | inserting a key not yet present into a strictly ordered list keeps it strictly ordered |
| Listing.SelectOrdered | backend/src/event.ts:322-330 | the rows passing the filter, each exactly once, ordered strictly by (time, name, description, id) |
| Listing.Slice | backend/src/event.ts:342-344 | `slice(start, end)` clamps both ends to the length and yields the elements between them |
| Listing.Paginate | backend/src/event.ts:342-344 | without both bounds the list is returned whole; otherwise it is the contiguous window `slice` selects, empty when end <= start |
| Listing.EventInfosOf | backend/src/event.ts:332-338 | each event is returned as stored, under its id, in the order given |
| Db.UserWithEmail | backend/src/auth.ts:80 | a lookup by the unique email column finds the one user holding it, or reports that none does |
| Db.UserWithZId | backend/src/auth.ts:37 | a lookup by the unique zId column finds the one user holding it, or reports that none does |
| Db.FormsOnEvents | backend/src/event.ts:159-163 | the forms of the remaining events in their order, still unique on (eventId, zId, email) |
| Db.DropUserKeepsIntegrity | backend/src/admin.ts:159-163 | deleting a user with every row that refers to it keeps all references and uniqueness constraints |
| Db.DropSocietyKeepsIntegrity | backend/src/society.ts:245-270 | deleting a society with its memberships and events keeps all references |
| Db.DropEventKeepsIntegrity | backend/src/event.ts:159-163 | deleting an event with its attendance rows and forms keeps all references |
| Db.Store.DeleteUser | backend/src/admin.ts:159-163 | the user is gone together with its sessions, memberships, applications, attendance rows and reset codes; the store stays valid |
| Db.Store.DeleteSociety | backend/src/society.ts:245-270 | the society is gone together with its memberships, events and what refers to those events; the store stays valid |
| Db.Store.DeleteEvent | backend/src/event.ts:159-163 | the event is gone together with its attendance rows and forms; the store stays valid |
| Utils.ValidateSession | backend/src/utils.ts:14-23 | a known token yields its session and user; any other yields 401 "Invalid token" |
| Utils.ValidateSocietyName | backend/src/utils.ts:25-48 | accepted exactly when the society keeps its own name, or the name has 1 to 100 characters of `[a-zA-Z0-9 ]` and is free; otherwise "Invalid society name" |
| Utils.RenameToOtherSocietysNameRejected | backend/src/utils.ts:29-45 | renaming a society to another society's name is refused |
| Utils.AcceptedNewNameIsFree | backend/src/utils.ts:38-45 | a name accepted for a new society belongs to no existing society |
| Utils.WebcalPath | backend/src/utils.ts:117-119 | the path is `/calendar/` + zId + `.ics`, and the zId can be read back from it |
| Utils.WebcalPathInjective | backend/src/utils.ts:117-119 | distinct zIds have distinct calendar paths |
| Perm.SocietyPermConverter | backend/src/perm.ts:51-60 | level 1 gives admin, level 2 moderator, and every other level member |
| Perm.SocietyPermReverter | backend/src/perm.ts:63-73 | admin ranks 1, moderator 2, and every other string 3 |
| Perm.LevelRoundTrip | backend/src/perm.ts:51-73 | converting a level 1 to 3 to a role and back gives the level |
| Perm.RoleRoundTrip | backend/src/perm.ts:51-73 | converting a stored role to its rank and back gives the role |
| Perm.SiteAllocateOutcome | backend/src/perm.ts:9-36 | succeeds exactly for a valid token, an existing target, level 1 or 2, and a site-admin actor; otherwise "Invalid token", "Invalid userId", "Invalid permLevel" or 403 "User is not a site admin", the first failing check deciding |
| Perm.PermSiteAllocate | backend/src/perm.ts:9-48 | on success only the target's site-admin flag changes, to `permLevel == 1` |
| Perm.AdminMayDemoteSelf | backend/src/perm.ts:9-48 | a site admin may demote themself, after which the same request is refused |
| Perm.SocietyAllocateOutcome | backend/src/perm.ts:75-144 | every BadRequest check comes before any authority check, each with its own message; a refused actor gets "Token user is not a member of the society", then "… manage this user" when it ranks below the target, then "… manage this permLevel"; success exactly when the target is a member and the actor is a site admin or a member that may manage both the target and the level |
| Perm.PermSocietyAllocate | backend/src/perm.ts:146-160 | on success only the target's role in that society changes, to the converted level |
| Perm.AllocationStaysBelowActor | backend/src/perm.ts:130-143 | an actor who is not a site admin never leaves the target outranking the actor |
| Perm.EqualRanksMayManage | backend/src/perm.ts:130-143 | a moderator may demote another moderator |
| Perm.MemberMaySetMemberToMember | backend/src/perm.ts:130-143 | a member may set another member to member, and no higher |
| Perm.SiteAdminBypassesRanks | backend/src/perm.ts:113-144 | a site admin needs no membership of the society |
| Admin.RequireSiteAdmin | backend/src/admin.ts:8-12 | passes exactly for a site admin's valid session; otherwise 401 or 403 "User is not a site admin" |
| Admin.AdminGetUsers | backend/src/admin.ts:6-27 | a site admin gets every user once, in id order, with its stored columns |
| Admin.AdminGetUserByZid | backend/src/admin.ts:30-42 | the user holding the zId with its columns, or "Invalid zId" when nobody holds it |
| Admin.ApproveOutcome | backend/src/admin.ts:44-72 | refuses a missing or already approved application but not a denied one; a name already taken fails on the unique column; otherwise the new society's id |
| Admin.AdminApplicationApprove | backend/src/admin.ts:44-84 | creates the society under the next id with the applicant as its admin, advances the society counter by one, and marks the application approved; on an error nothing changes, the id counter included |
| Admin.DenyOutcome | backend/src/admin.ts:86-105 | succeeds for a site admin and any existing application whatever its status; "Invalid Application ID" for a site admin and a missing application |
| Admin.AdminApplicationDeny | backend/src/admin.ts:86-108 | only that application's status changes, to denied |
| Admin.DeniedApplicationCanBeApproved | backend/src/admin.ts:59-60 | a denied application can still be approved |
| Admin.ApproveDenyApprove | backend/src/admin.ts:59-105 | after approval a deny still succeeds, and approval is then refused by the name check and not by the status check |
| Admin.AdminApplicationList | backend/src/admin.ts:110-142 | a site admin gets every application once, in id order, with its columns, built by the push loop |
| Admin.UserRemoveOutcome | backend/src/admin.ts:144-157 | a missing target is reported before the actor's authority; a non-admin removing an existing user gets 403 "Insufficient permissions"; success exactly for a site admin and an existing target |
| Admin.AdminUserRemove | backend/src/admin.ts:144-166 | on success exactly that user is gone; no other table gains or alters a row; on an error no table changes |
| Societies.ApplyOutcome | backend/src/society.ts:6-27 | succeeds exactly for a valid session and a free name of 1 to 100 allowed characters; the result is the new application's id |
| Societies.SocietyApply | backend/src/society.ts:6-28 | adds one pending application by the actor with the given name and description under the next id, advancing the counter by one; on an error neither the table nor the counter changes |
| Societies.ApplyThenApprove | backend/src/society.ts:6-28 | an application just accepted can be approved by any site admin |
| Societies.JoinOutcome | backend/src/society.ts:30-45 | succeeds exactly for a valid token and an existing society |
| Societies.JoinEffect | backend/src/society.ts:46-56 | the membership exists afterwards; an existing role is kept, a new row is a member; no other row changes |
| Societies.JoinIdempotent | backend/src/society.ts:46-56 | joining twice is joining once |
| Societies.SocietyJoin | backend/src/society.ts:30-59 | applies the membership upsert for the actor |
| Societies.SocietyView | backend/src/society.ts:61-74 | the stored society under its id, or "Invalid societyId" |
| Societies.EditOutcome | backend/src/society.ts:76-113 | checks session, society, authority (a site admin or the society's admin, never a moderator), then the name |
| Societies.SocietyEdit | backend/src/society.ts:76-116 | on success only name and description change; names stay unique |
| Societies.RenameKeepsNamesUnique | backend/src/society.ts:103-113 | a rename the name check accepts keeps society names unique |
| Societies.ModeratorCannotEdit | backend/src/society.ts:99-101 | a moderator who is not a site admin is refused |
| Societies.KeepingOwnNameIsAccepted | backend/src/utils.ts:29-36 | an authorised edit that keeps the society's own name passes |
| Societies.MemberRows | backend/src/society.ts:122-136 | the society's members, each once, in user-id order |
| Societies.SocietyMembers | backend/src/society.ts:118-150 | every member once, in user-id order, with the user's columns and the role, built by the push loop |
| Societies.SocietyEvents | backend/src/society.ts:152-194 | the society's events not yet started, each exactly once, ordered by (time, name, description, id); "Invalid SocietyId" for an unknown society |
| Societies.SocietySearch | backend/src/society.ts:203-235 | exactly the societies whose name or description contains the search string, in (name, description, id) order |
| Societies.SocietyList | backend/src/society.ts:196-243 | a contiguous window of the search result, so every entry matches and the order holds; the whole result when not paginated |
| Societies.PageOfSearch | backend/src/society.ts:237-240 | any window of an ordered, matching list is ordered and matching |
| Societies.DeleteOutcome | backend/src/society.ts:245-260 | only a site admin may delete; anyone else gets 403 "Insufficient permissions" for an existing society, a society admin included |
| Societies.SocietyAdminCannotDelete | backend/src/society.ts:258-260 | the society's own admin, not a site admin, is refused |
| Societies.SocietyDelete | backend/src/society.ts:245-270 | on success exactly that society is gone; no other table gains or alters a row; on an error no table changes |
| Events.CreateOutcome | backend/src/event.ts:8-39 | succeeds exactly for a valid session, an existing society, and an admin or moderator of it; anyone else gets 403 "Insufficient permissions"; a site admin gets no bypass |
| Events.CreateEvent | backend/src/event.ts:8-53 | adds the event under the next id, advances the counter by one and returns that id; on an error neither the table nor the counter changes |
| Events.SiteAdminCannotCreateWithoutRole | backend/src/event.ts:31-39 | a site admin with no role in the society is refused |
| Events.EditOutcome | backend/src/event.ts:55-90 | succeeds exactly for a valid session, an existing event, and an admin or moderator of its society; anyone else gets 403 "Insufficient permissions" |
| Events.EditEvent | backend/src/event.ts:55-114 | overwrites name, description, time and location; the society stays |
| Events.DeleteOutcome | backend/src/event.ts:116-153 | succeeds for a site admin, or an admin or moderator of the event's society; anyone else gets 403 "Insufficient permissions" |
| Events.SiteAdminMayDeleteButNotEdit | backend/src/event.ts:83-90 | a site admin without a role may delete an event but not edit it |
| Events.DeleteEvent | backend/src/event.ts:116-169 | on success exactly that event is gone; no attendance row or form is added; on an error no table changes |
| Events.GetEvent | backend/src/event.ts:171-192 | the stored event under its id, or "eventId is invalid" |
| Events.AttendOutcome | backend/src/event.ts:194-208 | succeeds exactly for a valid session and an existing event |
| Events.AttendEvent | backend/src/event.ts:194-226 | adds exactly the (user, event) attending row |
| Events.EventStatus | backend/src/event.ts:267-291 | true exactly when the actor has an attending row for the event |
| Events.AttendIdempotent | backend/src/event.ts:210-220 | attending twice leaves one row, and the status then reports attendance |
| Events.UnattendOutcome | backend/src/event.ts:228-252 | checks session, event, then "User is not attending" |
| Events.UnattendEvent | backend/src/event.ts:228-265 | deletes exactly that attending row |
| Events.AttendThenUnattend | backend/src/event.ts:194-265 | attending then unattending restores the rows, and the status then reports false |
| Events.EventSearch | backend/src/event.ts:301-338 | exactly the events passing every filter given, ordered by (time, name, description, id) |
| Events.GetEvents | backend/src/event.ts:293-346 | a contiguous window of the search result, so every entry passes the filters and the order holds; the whole result when not paginated |
| Events.PageOfEvents | backend/src/event.ts:340-344 | any window of an ordered, matching list is ordered and matching |
| Events.EmptyTimeWindow | backend/src/event.ts:313-319 | a start time after the end time lets no event through |
| Events.UpsertForm | backend/src/event.ts:358-368 | an existing form with the same (eventId, zId, email) is left alone, otherwise the form is appended; keys stay unique |
| Events.UpsertFormIdempotent | backend/src/event.ts:358-368 | submitting the same form twice is submitting it once |
| Events.FillFormOutcome | backend/src/event.ts:355-368 | a bad email is refused first; a missing event fails the upsert with a server error |
| Events.FillForm | backend/src/event.ts:348-387 | upserts the form, and records attendance for the user with that zId if there is one |
| Events.CsvOutcome | backend/src/event.ts:389-421 | succeeds for a site admin, or an admin or moderator of the event's society; "EventId is invalid" for a missing event, 403 "Invalid permissions" for anyone else |
| Events.FormsOfEvent | backend/src/event.ts:423-432 | exactly the event's forms, none of them twice when the table holds no duplicate |
| Events.FormsOfEventSingle | backend/src/event.ts:423-432 | a single form is kept exactly when it belongs to the event |
| Events.FormsOfEventAppend | backend/src/event.ts:423-432 | selecting the forms of an event commutes with concatenation, so the table's submission order is kept |
| Events.GenerateCsv | backend/src/event.ts:389-446 | the gate's error, or exactly the CSV text of the event's forms in submission order; empty without forms |
| Events.GenerateCsvSplitsBack | backend/src/event.ts:423-444 | a successful export splits back into one line per form of the event, each line into that form's zId, email and names |
| Events.CsvLineRoundTrip | backend/src/event.ts:442 | a line splits back into zId, email, first and last name when no field holds a comma |
| Events.CsvTextRoundTrip | backend/src/event.ts:439-444 | the text splits into one line per form, each splitting into that form's fields |
| Auth.RegisterOutcome | backend/src/auth.ts:18-46 | checks first name, last name, zId format, zId uniqueness ("Invalid zId"), then the lower-cased email's format and uniqueness ("Invalid Email"), each failure forcing its message in that order |
| Auth.AuthRegister | backend/src/auth.ts:18-76 | adds the user under the next id, with lower-cased names and email and a hashed password, advances the counter by one, and adds exactly one new session whose token is returned; on an error nothing changes |
| Auth.OnlyFirstUserIsAdmin | backend/src/auth.ts:48-57 | a new user is a site admin exactly when no user existed |
| Auth.LoginOutcome | backend/src/auth.ts:78-84 | succeeds exactly when a user has exactly this email and the password matches; both failures are "Invalid Credentials" |
| Auth.AuthLogin | backend/src/auth.ts:78-92 | adds exactly one new session for that user |
| Auth.RegisterThenLogin | backend/src/auth.ts:18-92 | a new user can log in with the lower-cased email and the password |
| Auth.LoginIsCaseSensitive | backend/src/auth.ts:41-84 | logging in with the mixed-case email used at registration fails |
| Auth.AuthLogout | backend/src/auth.ts:94-105 | deletes exactly that session |
| Auth.LogoutInvalidatesOnlyThatToken | backend/src/auth.ts:94-105 | after logout the token is refused and every other session still resolves as before |
| Reset.ResetGenerateOutcome | backend/src/reset.ts:12-14 | the request succeeds exactly when the email is well formed |
| Reset.ResetGenerateRevealsNoAccount | backend/src/reset.ts:12-46 | the reply is the same for a registered and an unregistered email |
| Reset.IssueCode | backend/src/reset.ts:15-45 | stores the code for the user with that exact email; no change when there is none or the code is taken; no existing code is altered |
| Reset.IssueResetCode | backend/src/reset.ts:15-26 | applies the code insert once the background work runs |
| Reset.ResetUseOutcome | backend/src/reset.ts:49-56 | the code's user, or "Invalid code" |
| Reset.SetPassword | backend/src/reset.ts:58-66 | only that user's password changes, to the hash of the new one; every other column and row is kept |
| Reset.AuthResetUse | backend/src/reset.ts:49-73 | sets the password of the code's user; the code stays stored |
| Reset.ResetThenLogin | backend/src/reset.ts:49-73 | after a reset the user logs in with the new password, and the code remains usable |
| Profiles.SocietiesWithRole | backend/src/profile.ts:10-34 | the societies where the user holds the role, each once, in id order |
| Profiles.ProfileView | backend/src/profile.ts:6-47 | the user's columns, exactly the societies they administer and moderate, the site-admin flag and the calendar path |
| Profiles.AdminAndModSocietiesDisjoint | backend/src/profile.ts:10-34 | no society is listed both as administered and as moderated |
| Profiles.ProfileEditOutcome | backend/src/profile.ts:49-67 | succeeds exactly for a valid session and an email no other user holds; the names and the email's format are not checked |
| Profiles.EditedUsers | backend/src/profile.ts:59-63 | only the user's names and email change, to the given values |
| Profiles.EditKeepsEmailsUnique | backend/src/profile.ts:59-67 | an accepted edit keeps emails unique |
| Profiles.ProfileEdit | backend/src/profile.ts:49-71 | updates the row and returns the edited profile |
| Profiles.KeepingOwnEmailPasses | backend/src/profile.ts:59-67 | an edit that keeps one's own email always passes |
| Profiles.EventsOfUser | backend/src/profile.ts:79-114 | the events paired with the user, each once, in id order, as stored |
| Profiles.ProfileEvents | backend/src/profile.ts:73-116 | exactly the events the user attends and has attended, each with its stored columns, in event-id order |
| Profiles.ProfileSocieties | backend/src/profile.ts:118-148 | exactly the societies the user has joined, each once, in id order, as stored |
| UserTypes.PermissionToPermissionLevel | frontend/src/types/user.ts:12-23 | site admin is level 1 and member level 2 |
| UserTypes.StringToSocietyPermission | frontend/src/types/user.ts:37-50 | defined exactly for the three stored role strings, each to its own permission |
| UserTypes.SocietyPermissionToPermissionLevel | frontend/src/types/user.ts:52-65 | levels run from 1 to 3 |
| UserTypes.ClientLevelsAgreeWithBackend | frontend/src/types/user.ts:37-65 | the client's level for a stored role equals the backend's rank for it |
| UserTypes.SocietyLevelsInjective | frontend/src/types/user.ts:52-65 | distinct permissions have distinct levels |
| UserTypes.BackendLevelRoundTrip | frontend/src/types/user.ts:37-65 | a backend level turned into a role and shown on the client comes back as the same level |

## Left out

- Calendar files (`generateICal`) and the CSV file write are I/O. `GenerateCsv` returns the text that would be written.
- Reset emails, console logging and the module-level store handle are left out.
- bcrypt is a deterministic digest, `PasswordHash.Digest`. Salting and cost are not modelled.
- validator's `isEmail` is approximated by `Text.IsEmail`: one `@`, a non-empty local part, a dotted domain and no spaces.
- Tokens and reset codes are drawn by choice from the strings not yet in use. The code's alphabet and length are stated by `Reset.IsResetCode`.
- Dates are integers. A time filter string that does not parse as a date is not modelled.
- The current time of `societyEvents` is a parameter.
- SQLite's case-insensitive `LIKE` for ASCII is not modelled: `contains` is case-sensitive here.
- Concurrency between handlers, and the unawaited background work of `authResetGenerate`, are left out. The code insert is a separate operation, `Reset.IssueResetCode`, that the caller may run later.
- `attended` rows are a set, so a form submitted twice records one attendance. The source may create a second row.
- Admin.AdminUserRemove: the contract promises only that no other table gains or alters a row. Which referring rows the schema cascades is not part of this model. The store deletes all of them so that `Valid()` holds.
- Societies.SocietyDelete: weaker for the same reason. Its memberships, events and their rows are deleted to keep `Valid()`.
- Events.DeleteEvent: weaker for the same reason, for attendance rows and forms.
- Text.ToLower: maps only the ASCII letters `A`-`Z` to lower case. JavaScript's `toLowerCase` also maps non-ASCII letters; that Unicode case mapping is not modelled, and non-ASCII characters pass through unchanged.
- Auth.RegisterOutcome: the email is lower-cased for ASCII letters only. JavaScript's `toLowerCase` also maps non-ASCII letters (such as `É` to `é`), and that Unicode case mapping is not modelled, so two emails that differ only in non-ASCII case count as different here.
- Auth.AuthRegister: stores the email and names lower-cased for ASCII letters only, for the same reason; non-ASCII letters are stored as given.
- `app.ts`, `server.ts`, the data and transporter set-up, and the rest of the frontend are not part of this model.
- Society and event handlers return the stored row's columns as `SocietyInfo` and `EventInfo`. Extra columns a `select` may add are not modelled.
