/**
 * The super admin's academic settings (pages/superadmin/AcademicConfig.tsx): the
 * department list, the teacher count per department, and course and curriculum
 * editing.
 */
module AcademicConfig {
  import opened Wrappers
  import opened Types
  import Seqs
  import MockDb

  predicate NoDuplicates(s: seq<string>) {
    forall i, j :: 0 <= i < j < |s| ==> s[i] != s[j]
  }

  // ---------------------------------------------------------------------------
  // Departments

  /**
   * `handleAddDept`: the configuration sent to `updateSystemConfig`, or None when the
   * name is empty or already listed.
   */
  function AddDept(config: SystemConfig, newDept: string): (r: Option<SystemConfig>)
    ensures r.None? <==> newDept == "" || newDept in config.departments
    ensures r.Some? ==> r.value == config.(departments := config.departments + [newDept])
  {
    if newDept != "" && newDept !in config.departments
    then Some(config.(departments := config.departments + [newDept]))
    else None
  }

  /** Adding a department keeps the list duplicate-free and grows it by at most one. */
  lemma AddDeptKeepsNoDuplicates(config: SystemConfig, newDept: string)
    requires NoDuplicates(config.departments)
    ensures var after := AddDept(config, newDept).GetOr(config).departments;
      NoDuplicates(after) && |after| <= |config.departments| + 1
  {
  }

  /** `handleDeleteDept`: when confirmed, every occurrence of the department goes and the rest stay in order. */
  function DeleteDept(config: SystemConfig, dept: string, confirmed: bool): (r: Option<SystemConfig>)
    ensures r.None? <==> !confirmed
    ensures r.Some? ==> r.value == config.(departments := r.value.departments)
    ensures r.Some? ==> dept !in r.value.departments
    ensures r.Some? ==> forall i :: 0 <= i < |config.departments| && config.departments[i] != dept ==>
      config.departments[i] in r.value.departments
    ensures r.Some? ==> multiset(r.value.departments) <= multiset(config.departments)
    ensures r.Some? ==> forall x ::
      multiset(r.value.departments)[x] == if x == dept then 0 else multiset(config.departments)[x]
    ensures r.Some? ==> Seqs.Subsequence(r.value.departments, config.departments)
  {
    if confirmed then
      var kept := (d: string) => d != dept;
      Seqs.FilterMultiplicity(config.departments, kept);
      Seqs.FilterIsSubsequence(config.departments, kept);
      Some(config.(departments := Seqs.Filter(config.departments, kept)))
    else None
  }

  /** Deleting a department that is not listed leaves the list as it was. */
  lemma DeleteAbsentDept(config: SystemConfig, dept: string)
    requires dept !in config.departments
    ensures DeleteDept(config, dept, true) == Some(config)
  {
    Seqs.FilterAll(config.departments, (d: string) => d != dept);
  }

  predicate TeachesIn(u: User, dept: string) {
    u.role == Teacher && u.department == Some(dept)
  }

  /** The filter `u => u.role === 'teacher' && u.department === dept`. */
  function TeachesInDept(dept: string): User -> bool {
    (u: User) => TeachesIn(u, dept)
  }

  datatype TeacherStatus = Assigned(count: nat) | Unassigned

  /** `getDeptTeacherStatus`: the number of teachers of the department, or 'Unassigned' when there are none. */
  function DeptTeacherStatus(staff: seq<User>, dept: string): (r: TeacherStatus)
    ensures r.Unassigned? <==> forall i :: 0 <= i < |staff| ==> !TeachesIn(staff[i], dept)
    ensures r.Assigned? ==> r.count == Seqs.Count(staff, TeachesInDept(dept)) && r.count > 0
  {
    var teachers := Seqs.Filter(staff, TeachesInDept(dept));
    if |teachers| > 0 then
      assert teachers[0] in staff && TeachesIn(teachers[0], dept);
      Assigned(|teachers|)
    else
      Unassigned
  }

  // ---------------------------------------------------------------------------
  // Courses

  /** `handleAddCourse`: the blank course offered for the selected department. */
  function NewCourseTemplate(selectedDept: string): (r: Course)
    ensures r.id == "" && r.name == "" && r.courseType == College && r.department == selectedDept
    ensures r.subjects == [] && r.tuitionPerUnit == Some(0) && r.miscFee == Some(0) && r.adviser == Some("")
  {
    Course("", "", College, selectedDept, Some(""), [], Some(0), Some(0))
  }

  datatype CourseSave = NoSave | UpdateExisting(id: string, updates: MockDb.CoursePatch) | AddNew(course: Course)

  /** `handleSaveCourse`: nothing without an id and a name; an update when the id is known, else an addition. */
  function SaveCourse(courses: seq<Course>, editing: Course): (r: CourseSave)
    ensures r == NoSave <==> editing.id == "" || editing.name == ""
    ensures r.UpdateExisting? ==> r.id == editing.id && FindCourse(courses, editing.id).Some? &&
                                  r.updates == MockDb.CourseAsPatch(editing)
    ensures r.AddNew? ==> r.course == editing && FindCourse(courses, editing.id).None?
  {
    if editing.id == "" || editing.name == "" then NoSave
    else if FindCourse(courses, editing.id).Some? then UpdateExisting(editing.id, MockDb.CourseAsPatch(editing))
    else AddNew(editing)
  }

  /** The course list after the store performs a save. */
  function ApplySave(courses: seq<Course>, save: CourseSave): (r: seq<Course>)
    ensures save.NoSave? ==> r == courses
    ensures save.AddNew? ==> r == courses + [save.course]
    ensures save.UpdateExisting? ==> |r| == |courses|
    ensures save.UpdateExisting? && save.updates.id == Some(save.id) ==>
      forall k :: 0 <= k < |r| ==> r[k].id == courses[k].id
    ensures save.UpdateExisting? ==> forall k :: 0 <= k < |r| && courses[k].id != save.id ==> r[k] == courses[k]
    ensures save.UpdateExisting? ==> forall k ::
      0 <= k < |courses| && courses[k].id == save.id && (forall j :: 0 <= j < k ==> courses[j].id != save.id) ==>
      r[k] == MockDb.MergeCourse(courses[k], save.updates)
    ensures save.UpdateExisting? ==> forall k ::
      0 <= k < |courses| && (exists j :: 0 <= j < k && courses[j].id == save.id) ==> r[k] == courses[k]
  {
    match save
    case NoSave => courses
    case UpdateExisting(id, updates) => MockDb.UpdateCourseIn(courses, id, updates)
    case AddNew(c) => courses + [c]
  }

  predicate UniqueIds(courses: seq<Course>) {
    forall i, j :: 0 <= i < j < |courses| ==> courses[i].id != courses[j].id
  }

  /** Saving through this page keeps the course ids unique. */
  lemma SaveCourseKeepsIdsUnique(courses: seq<Course>, editing: Course)
    requires UniqueIds(courses)
    ensures UniqueIds(ApplySave(courses, SaveCourse(courses, editing)))
  {
    var save := SaveCourse(courses, editing);
    var after := ApplySave(courses, save);
    match save
    case NoSave =>
    case AddNew(c) =>
      assert forall i :: 0 <= i < |courses| ==> courses[i].id != c.id;
      assert forall i :: 0 <= i < |courses| ==> after[i] == courses[i];
    case UpdateExisting(id, updates) =>
      var k := Seqs.FindFirst(courses, (c: Course) => c.id == id).value;
      assert after == courses[k := MockDb.MergeCourse(courses[k], updates)];
      assert after[k].id == courses[k].id;
      assert forall i :: 0 <= i < |courses| ==> after[i].id == courses[i].id;
  }

  // ---------------------------------------------------------------------------
  // Curriculum of the course being edited

  /** The subject form after a reset: empty code and name, 3 units, year 1, semester 1. */
  function BlankSubject(): (r: Subject)
    ensures r.code == "" && r.name == "" && r.units == 3 && FirstTerm(r)
  {
    Subject("", "", 3, Some(1), Some(1))
  }

  /**
   * `handleAddSubject`: with a code and a name, the subject is appended (no duplicate
   * check) and the form is reset; otherwise nothing changes.
   */
  function AddSubject(editing: Course, temp: Subject): (r: (Course, Subject))
    ensures temp.code == "" || temp.name == "" ==> r == (editing, temp)
    ensures temp.code != "" && temp.name != "" ==>
      r.0 == editing.(subjects := editing.subjects + [temp]) && r.1 == BlankSubject()
  {
    if temp.code == "" || temp.name == "" then (editing, temp)
    else (editing.(subjects := editing.subjects + [temp]), BlankSubject())
  }

  /** Adding a subject whose code is already listed gives a curriculum with that code twice. */
  lemma AddSubjectAllowsDuplicateCode(editing: Course, temp: Subject, k: nat)
    requires temp.code != "" && temp.name != ""
    requires k < |editing.subjects| && editing.subjects[k].code == temp.code
    ensures var after := AddSubject(editing, temp).0.subjects;
      after[k].code == after[|after| - 1].code && k != |after| - 1
  {
  }

  /** `removeSubject`: every subject with that code goes, the rest stay in order. */
  function RemoveSubject(editing: Course, code: string): (r: Course)
    ensures r == editing.(subjects := r.subjects)
    ensures forall i :: 0 <= i < |r.subjects| ==> r.subjects[i].code != code && r.subjects[i] in editing.subjects
    ensures forall i :: 0 <= i < |editing.subjects| && editing.subjects[i].code != code ==>
      editing.subjects[i] in r.subjects
    ensures forall x :: multiset(r.subjects)[x] == if x.code == code then 0 else multiset(editing.subjects)[x]
    ensures Seqs.Subsequence(r.subjects, editing.subjects)
  {
    var kept := (s: Subject) => s.code != code;
    Seqs.FilterMultiplicity(editing.subjects, kept);
    Seqs.FilterIsSubsequence(editing.subjects, kept);
    editing.(subjects := Seqs.Filter(editing.subjects, kept))
  }

  /** Removing the code of a subject just added, when no other subject had it, gives back the course. */
  lemma AddThenRemoveSubject(editing: Course, temp: Subject)
    requires temp.code != "" && temp.name != ""
    requires forall i :: 0 <= i < |editing.subjects| ==> editing.subjects[i].code != temp.code
    ensures RemoveSubject(AddSubject(editing, temp).0, temp.code) == editing
  {
    var kept := (s: Subject) => s.code != temp.code;
    Seqs.FilterConcat(editing.subjects, [temp], kept);
    Seqs.FilterAll(editing.subjects, kept);
    assert Seqs.Filter([temp], kept) == [];
  }

  /** `deptCourses`: the courses of the selected department; with none selected, none. */
  function DeptCourses(courses: seq<Course>, selectedDept: Option<string>): (r: seq<Course>)
    ensures selectedDept.None? ==> r == []
    ensures forall i :: 0 <= i < |r| ==> r[i] in courses && Some(r[i].department) == selectedDept
    ensures forall i :: 0 <= i < |courses| && Some(courses[i].department) == selectedDept ==> courses[i] in r
    ensures forall x ::
      multiset(r)[x] == if Some(x.department) == selectedDept then multiset(courses)[x] else 0
    ensures Seqs.Subsequence(r, courses)
  {
    var inDept := (c: Course) => Some(c.department) == selectedDept;
    Seqs.FilterMultiplicity(courses, inDept);
    Seqs.FilterIsSubsequence(courses, inDept);
    Seqs.Filter(courses, inDept)
  }
}
