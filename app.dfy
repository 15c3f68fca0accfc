/**
 * The top-level screen choice (App.tsx): which view the signed-in user sees for the
 * active page, the one-time password gate, and the password-change form check.
 */
module App {
  import opened Wrappers
  import opened Types
  import MockDb
  import Layout

  datatype View =
    | LoginView
    | ChangePasswordScreen
    | FinanceDashboard
    | StudentAccounts
    | RegistrarDashboard
    | StudentRecords
    | StudentDashboard
    | TeacherDashboard
    | SuperAdminDashboard
    | UserManagement
    | AcademicConfig
    | SystemRequests
    | TransactionLogs
    | AccessDenied

  /** A student session whose record says the generated password has not been changed yet. */
  predicate MustChangePassword(u: MockDb.Session): (r: bool)
    ensures r ==> MockDb.SessionRole(u) == StudentRole
    ensures r ==> u.StudentSession?
    ensures u.StudentSession? && u.profile.isPasswordChanged != Some(false) ==> !r
    ensures u.StudentSession? && u.profile.isPasswordChanged == Some(false) ==> r
  {
    u.StudentSession? && u.profile.isPasswordChanged == Some(false)
  }

  /** `renderContent`: the view for a role and page. */
  function RoleView(role: Role, activePage: string): (r: View)
    ensures role == Finance ==> (r == StudentAccounts <==> activePage == "accounts") &&
                                (r == StudentAccounts || r == FinanceDashboard)
    ensures role == Registrar ==> (r == StudentRecords <==> activePage == "records") &&
                                  (r == StudentRecords || r == RegistrarDashboard)
    ensures role == StudentRole ==> r == StudentDashboard
    ensures role == Teacher ==> r == TeacherDashboard
    ensures role == SuperAdmin ==>
      (r == UserManagement <==> activePage == "users") &&
      (r == AcademicConfig <==> activePage == "academic") &&
      (r == SystemRequests <==> activePage == "requests") &&
      (r == TransactionLogs <==> activePage == "transactions") &&
      (r == SuperAdminDashboard <==>
         activePage !in {"users", "academic", "requests", "transactions"})
    ensures r != AccessDenied && r != LoginView && r != ChangePasswordScreen
  {
    match role
    case Finance => if activePage == "accounts" then StudentAccounts else FinanceDashboard
    case Registrar => if activePage == "records" then StudentRecords else RegistrarDashboard
    case StudentRole => StudentDashboard
    case Teacher => TeacherDashboard
    case SuperAdmin =>
      if activePage == "users" then UserManagement
      else if activePage == "academic" then AcademicConfig
      else if activePage == "requests" then SystemRequests
      else if activePage == "transactions" then TransactionLogs
      else SuperAdminDashboard
  }

  /** `AppContent`: signed out gives the login screen; a gated student gets the password screen whatever the page. */
  function Route(user: Option<MockDb.Session>, activePage: string): (r: View)
    ensures user.None? <==> r == LoginView
    ensures user.Some? && MustChangePassword(user.value) <==> r == ChangePasswordScreen
    ensures user.Some? && !MustChangePassword(user.value) ==>
      r == RoleView(MockDb.SessionRole(user.value), activePage)
    ensures r != AccessDenied
  {
    match user
    case None => LoginView
    case Some(u) => if MustChangePassword(u) then ChangePasswordScreen else RoleView(MockDb.SessionRole(u), activePage)
  }

  /** An unset flag does not trigger the gate; only an explicit `false` does. */
  lemma UnsetFlagNotGated(s: Student, activePage: string)
    requires s.isPasswordChanged.None?
    ensures Route(Some(MockDb.StudentSessionOf(s)), activePage) == StudentDashboard
  {
  }

  /** Each page id in a super admin's menu opens a different view. */
  lemma SuperAdminMenuDistinctViews(admin: User, i: nat, j: nat)
    requires admin.role == SuperAdmin
    requires i < j < |Layout.MenuIds(Some(SuperAdmin))|
    ensures Route(Some(MockDb.StaffSession(admin)), Layout.MenuIds(Some(SuperAdmin))[i]) !=
            Route(Some(MockDb.StaffSession(admin)), Layout.MenuIds(Some(SuperAdmin))[j])
  {
  }

  /** Each non-dashboard menu entry of finance, registrar and super admin opens a view other than the role's dashboard. */
  lemma MenuEntriesLeaveDashboard(role: Role, k: nat)
    requires role in {Finance, Registrar, SuperAdmin}
    requires 0 < k < |Layout.MenuIds(Some(role))|
    ensures RoleView(role, Layout.MenuIds(Some(role))[k]) != RoleView(role, "dashboard")
  {
  }

  datatype PasswordOutcome = Mismatch | TooShort | Changed(password: string)

  /** `ChangePasswordScreen.handleSubmit`: a mismatch is reported first, then a length below 6; only then is the password changed. */
  function SubmitPassword(newPass: string, confirmPass: string): (r: PasswordOutcome)
    ensures r == Mismatch <==> newPass != confirmPass
    ensures r == TooShort <==> newPass == confirmPass && |newPass| < 6
    ensures r.Changed? <==> newPass == confirmPass && |newPass| >= 6
    ensures r.Changed? ==> r.password == newPass
  {
    if newPass != confirmPass then Mismatch
    else if |newPass| < 6 then TooShort
    else Changed(newPass)
  }
}
