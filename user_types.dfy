/** The client's permission enums and their conversions (frontend/src/types/user.ts). */
module UserTypes {
  import opened Types
  import Perm

  /** Site-wide permission, shown as 'site admin' or 'member'. */
  datatype Permission = SiteAdmin | SiteMember

  function PermissionName(p: Permission): string
  {
    match p
    case SiteAdmin => "site admin"
    case SiteMember => "member"
  }

  /** `permissionToPermissionLevel`: site admin is level 1, member level 2. */
  function PermissionToPermissionLevel(p: Permission): (level: int)
    ensures level == 1 <==> p == SiteAdmin
    ensures level == 2 <==> p == SiteMember
  {
    match p
    case SiteAdmin => 1
    case SiteMember => 2
  }

  /** Society permission, shown as 'Administrator', 'Moderator' or 'Member'. */
  datatype SocietyPermission = Administrator | Moderator | Member

  function SocietyPermissionName(p: SocietyPermission): string
  {
    match p
    case Administrator => "Administrator"
    case Moderator => "Moderator"
    case Member => "Member"
  }

  /** `stringToSocietyPermission`: the store's role strings; any other string throws
      "Invalid society permission value", shown as `None`. */
  function StringToSocietyPermission(role: string): (r: Option<SocietyPermission>)
    ensures r.Some? <==> IsRole(role)
    ensures r == Some(Administrator) <==> role == RoleAdmin
    ensures r == Some(Moderator) <==> role == RoleModerator
    ensures r == Some(Member) <==> role == RoleMember
  {
    if role == RoleAdmin then Some(Administrator)
    else if role == RoleModerator then Some(Moderator)
    else if role == RoleMember then Some(Member)
    else None
  }

  /** `societyPermissionToPermissionLevel`: 1, 2 and 3 from most to least privileged. */
  function SocietyPermissionToPermissionLevel(p: SocietyPermission): (level: int)
    ensures 1 <= level <= 3
  {
    match p
    case Administrator => 1
    case Moderator => 2
    case Member => 3
  }

  /** Converting a role string on the client gives the level the backend gives it. */
  lemma ClientLevelsAgreeWithBackend(role: string)
    requires IsRole(role)
    ensures SocietyPermissionToPermissionLevel(StringToSocietyPermission(role).value) == Perm.SocietyPermReverter(role)
  {
  }

  /** Distinct permissions have distinct levels, so the level identifies the permission. */
  lemma SocietyLevelsInjective(p: SocietyPermission, q: SocietyPermission)
    requires SocietyPermissionToPermissionLevel(p) == SocietyPermissionToPermissionLevel(q)
    ensures p == q
  {
  }

  /** Every backend level 1 to 3 is the level of exactly the permission its role maps to. */
  lemma BackendLevelRoundTrip(level: int)
    requires Perm.AdminLevel <= level <= Perm.MemberLevel
    ensures StringToSocietyPermission(Perm.SocietyPermConverter(level)).Some?
    ensures SocietyPermissionToPermissionLevel(StringToSocietyPermission(Perm.SocietyPermConverter(level)).value) == level
  {
    Perm.LevelRoundTrip(level);
    ClientLevelsAgreeWithBackend(Perm.SocietyPermConverter(level));
  }
}
