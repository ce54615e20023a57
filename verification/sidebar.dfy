/**
 * The navigation sidebar: it reads the stored user record once, derives
 * the menu from that record's role, and signs out by clearing the session
 * keys.
 */
module Sidebar {
  import opened Common
  import opened Storage
  import opened UserJson
  import Login

  /** The user state after the mount effect: the parsed record when the
      stored text is present, non-empty and parses; `null` otherwise. */
  function StoredUser(local: map<string, string>): (u: Option<User>)
    ensures u.Some? ==> IsSet(local, UserKey) && Parse(local[UserKey]) == u
    ensures !IsSet(local, UserKey) ==> u == None
  {
    if IsSet(local, UserKey) then Parse(local[UserKey]) else None
  }

  /** `user?.role || null`: an empty role counts as no role. */
  function MenuRole(user: Option<User>): (r: Option<string>)
    ensures r.Some? <==> user.Some? && user.value.role != ""
    ensures r.Some? ==> r.value == user.value.role
  {
    match user
    case Some(u) => if u.role != "" then Some(u.role) else None
    case None => None
  }

  datatype MenuItem = Dashboard | Employees | LeavesTypes | LeavesManagement | MyProfile | Leave | Payroll

  function Route(item: MenuItem): string {
    match item
    case Dashboard => "/dashboard"
    case Employees => "/Employees"
    case LeavesTypes => "/LeavesTypes"
    case LeavesManagement => "/LeavesManagement"
    case MyProfile => "/Profile"
    case Leave => "/Leave"
    case Payroll => "/Payroll"
  }

  function Menu(role: Option<string>): seq<MenuItem> {
    [Dashboard]
    + (if role == Some("ADMIN") then [Employees, LeavesTypes, LeavesManagement] else [])
    + (if role == Some("EMPLOYEE") then [MyProfile, Leave] else [])
    + [Payroll]
  }

  /** Dashboard and Payroll are always offered, first and last; the three
      administration links appear exactly for "ADMIN" and the two personal
      links exactly for "EMPLOYEE", so no menu mixes the two. */
  lemma MenuByRole(role: Option<string>)
    ensures Menu(role)[0] == Dashboard && Menu(role)[|Menu(role)| - 1] == Payroll
    ensures Employees in Menu(role) <==> role == Some("ADMIN")
    ensures LeavesTypes in Menu(role) <==> role == Some("ADMIN")
    ensures LeavesManagement in Menu(role) <==> role == Some("ADMIN")
    ensures MyProfile in Menu(role) <==> role == Some("EMPLOYEE")
    ensures Leave in Menu(role) <==> role == Some("EMPLOYEE")
    ensures !(Employees in Menu(role) && MyProfile in Menu(role))
    ensures role != Some("ADMIN") && role != Some("EMPLOYEE") ==> Menu(role) == [Dashboard, Payroll]
  {
  }

  /** The name line: first and last name joined by one space, or the guest
      placeholder; the e-mail line likewise. */
  function DisplayName(user: Option<User>): string {
    match user
    case Some(u) => u.firstName + " " + u.lastName
    case None => "Guest User"
  }

  function DisplayEmail(user: Option<User>): string {
    match user
    case Some(u) => u.email
    case None => "No Email"
  }

  /** Signing out removes the token and the user record from localStorage
      and the toast flag from sessionStorage, then goes to "/". */
  method HandleLogout(store: BrowserStorage) returns (route: string)
    modifies store
    ensures store.local == old(store.local) - {TokenKey, UserKey}
    ensures store.session == old(store.session) - {ToastShownKey}
    ensures route == "/"
  {
    store.local := store.local - {TokenKey};
    store.local := store.local - {UserKey};
    store.session := store.session - {ToastShownKey};
    route := "/";
  }

  /** After signing out nobody is signed in for the sidebar, yet the stored
      role survives: sign-out never clears it. */
  lemma LogoutClears(local: map<string, string>)
    ensures StoredUser(local - {TokenKey, UserKey}) == None
    ensures !IsSet(local - {TokenKey, UserKey}, TokenKey)
    ensures GetItem(local - {TokenKey, UserKey}, RoleKey) == GetItem(local, RoleKey)
  {
  }

  /** Right after a sign-in the sidebar shows the signed-in user and the
      menu for the role the server sent. */
  lemma MenuAfterLogin(local: map<string, string>, token: string, u: User)
    ensures StoredUser(Login.SignedIn(local, token, u)) == Some(u)
    ensures MenuRole(StoredUser(Login.SignedIn(local, token, u))) ==
      (if u.role != "" then Some(u.role) else None)
  {
    Login.SignedInStores(local, token, u);
    ParseStringify(u);
    assert Stringify(u) != "";
  }
}
