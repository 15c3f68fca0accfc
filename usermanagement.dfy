/**
 * The staff directory of the super admin (pages/superadmin/UserManagement.tsx): the add /
 * edit form, what its submit sends to the store, and the sorted department choices.
 */
module UserManagement {
  import opened Wrappers
  import opened Types
  import MockDb
  import Sorting

  /**
   * The form state, a `Partial<User>` whose name, username and role are always present:
   * both ways of opening the form set them and every input only overwrites them.
   */
  datatype UserForm = UserForm(
    id: Option<string>,
    username: string,
    name: string,
    role: Role,
    email: Option<string>,
    department: Option<string>)

  /** The modal: the form and whether it edits an existing user. */
  datatype Modal = Modal(form: UserForm, editMode: bool)

  /** `openAdd`: a blank registrar, not in edit mode. */
  function OpenAdd(): (m: Modal)
    ensures !m.editMode && m.form.id.None? && m.form.role == Registrar
    ensures m.form.username == "" && m.form.name == ""
    ensures m.form.email == Some("") && m.form.department == Some("")
  {
    Modal(UserForm(None, "", "", Registrar, Some(""), Some("")), false)
  }

  /** `openEdit(user)`: the user's own fields, in edit mode. */
  function OpenEdit(u: User): (m: Modal)
    ensures m.editMode && m.form.id == Some(u.id)
    ensures m.form.username == u.username && m.form.name == u.name && m.form.role == u.role
    ensures m.form.email == u.email && m.form.department == u.department
  {
    Modal(UserForm(Some(u.id), u.username, u.name, u.role, u.email, u.department), true)
  }

  /** What `handleSubmit` sends to the store. */
  datatype Submission = UpdateExisting(id: string, updates: MockDb.UserPatch) | AddNew(user: User)

  /** The form as the patch `updateUser` merges: keys the form lacks are left alone. */
  function FormPatch(f: UserForm): (p: MockDb.UserPatch)
    ensures p.id == f.id && p.username == Some(f.username) && p.name == Some(f.name) && p.role == Some(f.role)
    ensures p.email == (if f.email.Some? then Some(f.email) else None)
    ensures p.department == (if f.department.Some? then Some(f.department) else None)
  {
    MockDb.UserPatch(
      f.id, Some(f.username), Some(f.role), Some(f.name),
      if f.department.Some? then Some(f.department) else None,
      if f.email.Some? then Some(f.email) else None)
  }

  /**
   * `handleSubmit`: in edit mode with a non-empty id the whole form is merged into that
   * user; otherwise a new user with id `u` + `stamp` (the clock reading) is added, keeping
   * the department only for a teacher.
   */
  function HandleSubmit(m: Modal, stamp: string): (r: Submission)
    ensures r.UpdateExisting? <==> m.editMode && m.form.id.Some? && m.form.id.value != ""
    ensures r.UpdateExisting? ==> r.id == m.form.id.value && r.updates == FormPatch(m.form)
    ensures r.AddNew? ==>
      r.user.id == "u" + stamp && r.user.username == m.form.username && r.user.name == m.form.name &&
      r.user.role == m.form.role && r.user.email == m.form.email
    ensures r.AddNew? ==> (r.user.department.Some? ==> m.form.role == Teacher)
    ensures r.AddNew? && m.form.role == Teacher ==> r.user.department == m.form.department
  {
    var f := m.form;
    if m.editMode && f.id.Some? && f.id.value != "" then
      UpdateExisting(f.id.value, FormPatch(f))
    else
      AddNew(User("u" + stamp, f.username, f.role, f.name,
                  if f.role == Teacher then f.department else None, f.email))
  }

  /** The staff list once the submission reaches the store. */
  function ApplySubmission(users: seq<User>, s: Submission): (r: seq<User>)
    ensures s.AddNew? ==> r == users + [s.user]
    ensures s.UpdateExisting? ==> |r| == |users|
    ensures s.UpdateExisting? && s.updates.id == Some(s.id) ==> forall k :: 0 <= k < |r| ==> r[k].id == users[k].id
    ensures s.UpdateExisting? ==> forall k :: 0 <= k < |r| && users[k].id != s.id ==> r[k] == users[k]
    ensures s.UpdateExisting? ==> forall k ::
      0 <= k < |users| && users[k].id == s.id && (forall j :: 0 <= j < k ==> users[j].id != s.id) ==>
      r[k] == MockDb.MergeUser(users[k], s.updates)
    ensures s.UpdateExisting? ==> forall k ::
      0 <= k < |users| && (exists j :: 0 <= j < k && users[j].id == s.id) ==> r[k] == users[k]
  {
    match s
    case UpdateExisting(id, updates) => MockDb.UpdateUserIn(users, id, updates)
    case AddNew(user) => users + [user]
  }

  /** Opening a user for editing and saving it untouched changes nothing, however the list looks. */
  lemma EditUntouchedIsNoOp(users: seq<User>, u: User, stamp: string)
    requires u.id != ""
    ensures HandleSubmit(OpenEdit(u), stamp) == UpdateExisting(u.id, FormPatch(OpenEdit(u).form))
    ensures MockDb.MergeUser(u, FormPatch(OpenEdit(u).form)) == u
    ensures u in users && (forall j :: 0 <= j < |users| && users[j].id == u.id ==> users[j] == u) ==>
      ApplySubmission(users, HandleSubmit(OpenEdit(u), stamp)) == users
  {
  }

  /**
   * Editing does not clear a department: a teacher turned into a registrar through the edit
   * form keeps the department, whereas the same form submitted as a new user drops it.
   */
  lemma EditKeepsDepartmentAddDropsIt(u: User, stamp: string)
    requires u.id != "" && u.role == Teacher && u.department.Some?
    ensures var m := OpenEdit(u);
      var edited := Modal(m.form.(role := Registrar), true);
      MockDb.MergeUser(u, HandleSubmit(edited, stamp).updates) == u.(role := Registrar)
    ensures var m := OpenEdit(u);
      HandleSubmit(Modal(m.form.(role := Registrar), false), stamp).user.department.None?
  {
  }

  /** A user added from a freshly opened form is a registrar with blank names. */
  lemma AddFromBlankForm(stamp: string)
    ensures HandleSubmit(OpenAdd(), stamp) == AddNew(User("u" + stamp, "", Registrar, "", None, Some("")))
  {
  }

  /** `[...config.departments].sort()`: a sorted copy; the configuration is not reordered. */
  function SortedDepartments(config: SystemConfig): (r: seq<string>)
    ensures Sorting.LexSorted(r)
    ensures multiset(r) == multiset(config.departments)
  {
    Sorting.SortStrings(config.departments)
  }
}
