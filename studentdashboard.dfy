/**
 * The student's own page (pages/student/StudentDashboard.tsx): the record found by the
 * session id, the enrolled subjects, the five most recent ledger entries and how amounts
 * and grades are shown.
 */
module StudentDashboard {
  import opened Wrappers
  import opened Types
  import Seqs
  import MockDb
  import TeacherDashboard

  function IdIs(sessionId: Option<string>): Student -> bool {
    (s: Student) => sessionId.Some? && s.id == sessionId.value
  }

  /**
   * `students.find(s => s.id === user?.id)`: the first student with the session's id; None
   * (the loading view) when there is no session or no such student.
   */
  function StudentData(students: seq<Student>, session: Option<MockDb.Session>): (r: Option<Student>)
    ensures r.Some? ==> session.Some? && r.value in students && r.value.id == MockDb.SessionId(session.value)
    ensures r.Some? ==> exists k ::
      0 <= k < |students| && students[k] == r.value &&
      (forall j :: 0 <= j < k ==> students[j].id != MockDb.SessionId(session.value))
    ensures r.None? <==> session.None? ||
                         forall i :: 0 <= i < |students| ==> students[i].id != MockDb.SessionId(session.value)
  {
    var sessionId := if session.Some? then Some(MockDb.SessionId(session.value)) else None;
    Seqs.Find(students, IdIs(sessionId))
  }

  /** A student who logged in finds their own record, as long as the store still holds it. */
  lemma LoggedInStudentFound(students: seq<Student>, s: Student)
    requires s in students
    ensures StudentData(students, Some(MockDb.StudentSessionOf(s))).Some?
    ensures StudentData(students, Some(MockDb.StudentSessionOf(s))).value.id == s.id
  {
    var i :| 0 <= i < |students| && students[i] == s;
    assert students[i].id == MockDb.SessionId(MockDb.StudentSessionOf(s));
  }

  /** `course?.name || studentData.courseId`. */
  function CourseLabel(courses: seq<Course>, s: Student): (r: string)
    ensures var c := FindCourse(courses, s.courseId);
      r == (if c.Some? && c.value.name != "" then c.value.name else s.courseId)
  {
    match FindCourse(courses, s.courseId)
    case Some(c) => if c.name != "" then c.name else s.courseId
    case None => s.courseId
  }

  predicate IsEnrolledRecord(r: EnrolledSubject) {
    r.status.Enrolled?
  }

  /** `enrolledSubjects`: exactly the records with status enrolled, in record order. */
  function EnrolledSubjects(s: Student): (r: seq<EnrolledSubject>)
    ensures forall i :: 0 <= i < |r| ==> r[i].status.Enrolled? && r[i] in s.academicRecords
    ensures forall i :: 0 <= i < |s.academicRecords| && s.academicRecords[i].status.Enrolled? ==>
      s.academicRecords[i] in r
    ensures |r| <= |s.academicRecords|
    ensures forall x :: multiset(r)[x] == if x.status.Enrolled? then multiset(s.academicRecords)[x] else 0
    ensures Seqs.Subsequence(r, s.academicRecords)
  {
    Seqs.FilterMultiplicity(s.academicRecords, IsEnrolledRecord);
    Seqs.FilterIsSubsequence(s.academicRecords, IsEnrolledRecord);
    Seqs.Filter(s.academicRecords, IsEnrolledRecord)
  }

  /** Grading a subject does not change which subjects count as enrolled. */
  lemma {:induction false} GradingKeepsEnrolledCount(records: seq<EnrolledSubject>, code: string, grade: string)
    ensures Seqs.Count(TeacherDashboard.UpdateGrade(records, code, grade), IsEnrolledRecord) ==
            Seqs.Count(records, IsEnrolledRecord)
    decreases |records|
  {
    if |records| > 0 {
      var r := TeacherDashboard.UpdateGrade(records, code, grade);
      assert r[1..] == TeacherDashboard.UpdateGrade(records[1..], code, grade);
      GradingKeepsEnrolledCount(records[1..], code, grade);
    }
  }

  /** `transactions.slice(0, 5)`: the first five entries in stored order, or all when fewer. */
  function RecentActivity(s: Student): (r: seq<Transaction>)
    ensures |r| == (if |s.transactions| < 5 then |s.transactions| else 5)
    ensures forall i :: 0 <= i < |r| ==> r[i] == s.transactions[i]
  {
    if |s.transactions| < 5 then s.transactions else s.transactions[..5]
  }

  /**
   * The store prepends: right after `addTransaction` the new entry heads the recent
   * activity, followed by what was shown before, less the oldest when five were shown.
   */
  lemma AddedTransactionShownFirst(s: Student, tx: Transaction)
    ensures var r := RecentActivity(MockDb.AddTransactionOn(s, tx));
      |r| > 0 && r[0] == MockDb.Posted(tx) &&
      r[1..] == (if |RecentActivity(s)| < 5 then RecentActivity(s) else RecentActivity(s)[..4])
  {
  }

  /** The amount column: '-' for a payment and '+' for anything else, then the absolute amount. */
  datatype SignedAmount = SignedAmount(sign: char, magnitude: int)

  function ActivityAmount(t: Transaction): (r: SignedAmount)
    ensures r.sign == '-' <==> t.txType == Payment
    ensures r.sign == '-' || r.sign == '+'
    ensures r.magnitude >= 0 && (r.magnitude == t.amount || r.magnitude == -t.amount)
  {
    SignedAmount(if t.txType == Payment then '-' else '+', MockDb.Abs(t.amount))
  }

  function SignedValue(a: SignedAmount): int {
    if a.sign == '-' then -a.magnitude else a.magnitude
  }

  /**
   * For an entry that is not voided, and is not an adjustment lowering the balance, the shown
   * amount is exactly what the entry adds to the balance.
   */
  lemma ActivityAmountIsEffect(t: Transaction)
    requires t.status != Some(Voided)
    requires t.txType == Adjustment ==> t.amount >= 0
    ensures SignedValue(ActivityAmount(t)) == MockDb.Effect(t)
  {
  }

  /** A credit adjustment (negative amount) lowers the balance but is shown with a '+'. */
  lemma CreditAdjustmentShownAsCharge(t: Transaction)
    requires t.txType == Adjustment && t.amount < 0 && t.status != Some(Voided)
    ensures ActivityAmount(t).sign == '+'
    ensures MockDb.Effect(t) < 0 < SignedValue(ActivityAmount(t))
  {
  }

  /** The grade column: the grade when it is truthy, otherwise 'In Progress'. */
  datatype GradeCell = Shown(grade: Grade) | InProgress

  function GradeDisplay(g: Option<Grade>): (r: GradeCell)
    ensures r.InProgress? <==> !GradeTruthy(g)
    ensures r.Shown? ==> g == Some(r.grade)
  {
    if GradeTruthy(g) then Shown(g.value) else InProgress
  }

  /** A subject a teacher has graded with a non-empty text shows that grade; clearing it shows 'In Progress'. */
  lemma GradedSubjectShown(records: seq<EnrolledSubject>, code: string, grade: string, i: nat)
    requires i < |records| && records[i].code == code
    ensures var r := TeacherDashboard.UpdateGrade(records, code, grade);
      GradeDisplay(r[i].grade) == (if grade != "" then Shown(TextGrade(grade)) else InProgress)
  {
  }

  /** `g.instructor || 'TBA'`. */
  function InstructorDisplay(r: EnrolledSubject): (s: string)
    ensures r.instructor.Some? && r.instructor.value != "" ==> s == r.instructor.value
    ensures r.instructor.None? || r.instructor.value == "" ==> s == "TBA"
  {
    match r.instructor
    case Some(name) => if name != "" then name else "TBA"
    case None => "TBA"
  }
}
