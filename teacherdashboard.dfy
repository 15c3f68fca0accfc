/**
 * The teacher's class list and grade entry (pages/teacher/TeacherDashboard.tsx).
 */
module TeacherDashboard {
  import opened Wrappers
  import opened Types
  import Seqs
  import MockDb

  /** `courses.find(c => c.id === s.courseId)?.department`: None when the course is missing. */
  function CourseDepartment(courses: seq<Course>, s: Student): (r: Option<string>)
    ensures r.None? <==> FindCourse(courses, s.courseId).None?
    ensures r.Some? ==> r.value == FindCourse(courses, s.courseId).value.department
  {
    match FindCourse(courses, s.courseId)
    case None => None
    case Some(c) => Some(c.department)
  }

  /** The filter of `myStudents`: `course?.department === teacherDept`. */
  function InDepartment(courses: seq<Course>, teacherDept: Option<string>): Student -> bool {
    (s: Student) => CourseDepartment(courses, s) == teacherDept
  }

  /** `myStudents`: the students whose course's department is the teacher's department. */
  function MyStudents(students: seq<Student>, courses: seq<Course>, teacherDept: Option<string>): (r: seq<Student>)
    ensures forall i :: 0 <= i < |r| ==> r[i] in students && CourseDepartment(courses, r[i]) == teacherDept
    ensures forall i :: 0 <= i < |students| && CourseDepartment(courses, students[i]) == teacherDept ==>
      students[i] in r
    ensures forall x ::
      multiset(r)[x] == if CourseDepartment(courses, x) == teacherDept then multiset(students)[x] else 0
    ensures Seqs.Subsequence(r, students)
  {
    Seqs.FilterMultiplicity(students, InDepartment(courses, teacherDept));
    Seqs.FilterIsSubsequence(students, InDepartment(courses, teacherDept));
    Seqs.Filter(students, InDepartment(courses, teacherDept))
  }

  /**
   * A teacher with a department never sees a student whose course is missing; one
   * without a department sees exactly those students (`undefined === undefined`).
   */
  lemma NoDepartmentSeesOrphans(students: seq<Student>, courses: seq<Course>, teacherDept: Option<string>, s: Student)
    requires s in MyStudents(students, courses, teacherDept)
    ensures teacherDept.None? <==> FindCourse(courses, s.courseId).None?
  {
  }

  /** The record after a grade entry: the grade is replaced by the entered text. */
  function Graded(r: EnrolledSubject, newGrade: string): EnrolledSubject {
    r.(grade := Some(TextGrade(newGrade)))
  }

  /** `handleUpdateGrade`'s record list: records of that code get the new grade; nothing else changes. */
  function UpdateGrade(records: seq<EnrolledSubject>, subjectCode: string, newGrade: string): (r: seq<EnrolledSubject>)
    ensures |r| == |records|
    ensures forall i :: 0 <= i < |records| ==>
      r[i] == (if records[i].code == subjectCode then records[i].(grade := Some(TextGrade(newGrade))) else records[i])
    ensures forall i :: 0 <= i < |records| ==> r[i].code == records[i].code && r[i].status == records[i].status
  {
    Seqs.Map(records, (x: EnrolledSubject) => if x.code == subjectCode then Graded(x, newGrade) else x)
  }

  /** A grade entry for a code the student does not take changes nothing. */
  lemma UpdateGradeUnknownCode(records: seq<EnrolledSubject>, subjectCode: string, newGrade: string)
    requires forall i :: 0 <= i < |records| ==> records[i].code != subjectCode
    ensures UpdateGrade(records, subjectCode, newGrade) == records
  {
  }

  /** Entering the same grade twice is entering it once. */
  lemma UpdateGradeIdempotent(records: seq<EnrolledSubject>, subjectCode: string, newGrade: string)
    ensures UpdateGrade(UpdateGrade(records, subjectCode, newGrade), subjectCode, newGrade) ==
            UpdateGrade(records, subjectCode, newGrade)
  {
  }

  /** Through the store the grade entry changes only the student's academic records. */
  lemma GradeEntryOnlyTouchesRecords(s: Student, subjectCode: string, newGrade: string)
    ensures var records := UpdateGrade(s.academicRecords, subjectCode, newGrade);
      MockDb.MergeStudent(s, MockDb.RecordsPatch(records)) == s.(academicRecords := records)
  {
    MockDb.RecordsPatchOnlyRecords(s, UpdateGrade(s.academicRecords, subjectCode, newGrade));
  }

  /** The selected-student copy is refreshed only when it is the graded student. */
  function RefreshSelected(selected: Option<Student>, graded: Student, records: seq<EnrolledSubject>)
    : (r: Option<Student>)
    ensures selected.None? ==> r.None?
    ensures selected.Some? && selected.value.id == graded.id ==> r == Some(selected.value.(academicRecords := records))
    ensures selected.Some? && selected.value.id != graded.id ==> r == selected
  {
    if selected.Some? && selected.value.id == graded.id then Some(selected.value.(academicRecords := records))
    else selected
  }
}
