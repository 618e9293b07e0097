/** The User record and its factory (src/domain/entities/User.ts). */
module UserEntity {
  import opened Basics

  datatype UserRole = Admin | Editor | Viewer
  datatype Theme = Light | Dark | System

  datatype UserPreferences = UserPreferences(
    theme: Theme,
    defaultDashboardId: Option<string>,
    refreshInterval: int,   // seconds
    notifications: bool)

  datatype User = User(
    id: string,
    email: string,
    name: string,
    role: UserRole,
    teams: Option<seq<string>>,
    preferences: UserPreferences,
    lastLogin: Option<Time>)

  /** `createUser`; `role` is `None` when the caller leaves the defaulted
      parameter out, and `id` is the fresh UUID. */
  function CreateUser(id: string, email: string, name: string, role: Option<UserRole>): (u: User)
    ensures u.id == id && u.email == email && u.name == name
    ensures role.None? ==> u.role == Viewer
    ensures role.Some? ==> u.role == role.value
    ensures u.preferences.theme == System && u.preferences.refreshInterval == 60
    ensures u.preferences.notifications
    ensures u.preferences.defaultDashboardId.None? && u.teams.None? && u.lastLogin.None?
  {
    var r := if role.Some? then role.value else Viewer;
    User(id, email, name, r, None, UserPreferences(System, None, 60, true), None)
  }
}
