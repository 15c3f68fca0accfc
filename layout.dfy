/**
 * The portal frame (components/Layout.tsx): the sidebar menu per role, the name shown
 * for the signed-in user and the page header.
 */
module Layout {
  import opened Wrappers
  import opened Types
  import Strings
  import MockDb

  /** `getMenuItems`, as the list of page ids; no role gets no menu. */
  function MenuIds(role: Option<Role>): (r: seq<string>)
    ensures role.None? ==> r == []
    ensures role.Some? ==> |r| > 0 && r[0] == "dashboard"
    ensures forall i, j :: 0 <= i < j < |r| ==> r[i] != r[j]
    ensures role == Some(Finance) ==> r == ["dashboard", "accounts"]
    ensures role == Some(Registrar) ==> r == ["dashboard", "records"]
    ensures role == Some(Teacher) ==> r == ["dashboard"]
    ensures role == Some(StudentRole) ==> r == ["dashboard", "grades", "billing"]
    ensures role == Some(SuperAdmin) ==> r == ["dashboard", "users", "academic", "transactions", "requests"]
  {
    match role
    case None => []
    case Some(Finance) => ["dashboard", "accounts"]
    case Some(Registrar) => ["dashboard", "records"]
    case Some(Teacher) => ["dashboard"]
    case Some(StudentRole) => ["dashboard", "grades", "billing"]
    case Some(SuperAdmin) => ["dashboard", "users", "academic", "transactions", "requests"]
  }

  /** The signed-in user's role, as `user?.role`. */
  function UserRole(user: Option<MockDb.Session>): (r: Option<Role>)
    ensures r.None? <==> user.None?
    ensures user.Some? && user.value.StudentSession? ==> r == Some(StudentRole)
    ensures user.Some? && user.value.StaffSession? ==> r == Some(user.value.user.role)
  {
    match user
    case None => None
    case Some(u) => Some(MockDb.SessionRole(u))
  }

  /** `displayName`: first and last name for a student, the name for staff, '' when signed out. */
  function DisplayName(user: Option<MockDb.Session>): (r: string)
    ensures user.None? ==> r == ""
    ensures user.Some? && user.value.StaffSession? ==> r == user.value.user.name
    ensures user.Some? && user.value.StudentSession? ==>
      r == user.value.profile.firstName + " " + user.value.profile.lastName
  {
    match user
    case None => ""
    case Some(StaffSession(u)) => u.name
    case Some(StudentSession(p, _, _)) => p.firstName + " " + p.lastName
  }

  /** For a student the shown name is the name the login put in the session. */
  lemma StudentDisplayNameIsSessionName(s: Student)
    ensures DisplayName(Some(MockDb.StudentSessionOf(s))) == MockDb.StudentSessionOf(s).name
  {
  }

  /** The header: 'Student Accounts' for the records and accounts pages, else the page id with its first '-' made a space. */
  function HeaderTitle(activePage: string): (r: string)
    ensures activePage == "records" || activePage == "accounts" ==> r == "Student Accounts"
    ensures activePage != "records" && activePage != "accounts" ==>
      |r| == |activePage| && ('-' !in activePage ==> r == activePage) &&
      ('-' in activePage ==> exists k :: 0 <= k < |activePage| && activePage[k] == '-' &&
                                          '-' !in activePage[..k] && r == activePage[k := ' '])
  {
    if activePage == "records" || activePage == "accounts" then "Student Accounts"
    else Strings.ReplaceFirst(activePage, '-', ' ')
  }
}
