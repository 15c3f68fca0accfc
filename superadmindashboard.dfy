/**
 * The super admin overview (pages/superadmin/SuperAdminDashboard.tsx): four totals and the
 * enrollment and receivables per course, in course order.
 */
module SuperAdminDashboard {
  import opened Types
  import opened CourseTotals
  import Seqs
  import FinanceDashboard
  import RegistrarDashboard

  datatype Overview = Overview(
    totalStudents: nat,
    totalStaff: nat,
    totalReceivables: int,
    totalCourses: nat,
    enrollmentData: seq<ChartPoint>,
    financialData: seq<ChartPoint>)

  /**
   * The overview of the stored students, staff and courses: the receivables are the finance
   * total, and each chart has one bar per course, in course order.
   */
  function MakeOverview(students: seq<Student>, staff: seq<User>, courses: seq<Course>): (r: Overview)
    ensures r.totalStudents == |students| && r.totalStaff == |staff| && r.totalCourses == |courses|
    ensures r.totalReceivables == FinanceDashboard.TotalReceivables(students)
    ensures |r.enrollmentData| == |courses| && |r.financialData| == |courses|
    ensures forall i :: 0 <= i < |courses| ==>
      r.enrollmentData[i].courseId == courses[i].id &&
      r.enrollmentData[i].value == Seqs.Count(students, OfCourse(courses[i].id))
    ensures forall i :: 0 <= i < |courses| ==>
      r.financialData[i].courseId == courses[i].id &&
      r.financialData[i].value == Seqs.SumOf(Seqs.Filter(students, OfCourse(courses[i].id)), FinanceDashboard.Balance)
  {
    Overview(
      |students|, |staff|, FinanceDashboard.TotalReceivables(students), |courses|,
      RegistrarDashboard.CourseEnrollment(students, courses),
      FinanceDashboard.CourseReceivables(students, courses))
  }

  /**
   * The super admin's charts hold the same bars as the registrar's and the finance
   * officer's, only unsorted; and when every student's course id names exactly one course
   * they add up to the student and receivables totals.
   */
  lemma OverviewAgreesWithDashboards(students: seq<Student>, staff: seq<User>, courses: seq<Course>)
    ensures multiset(MakeOverview(students, staff, courses).enrollmentData) ==
            multiset(RegistrarDashboard.EnrollmentByCourse(students, courses))
    ensures multiset(MakeOverview(students, staff, courses).financialData) ==
            multiset(FinanceDashboard.ReceivablesByCourse(students, courses))
    ensures EachStudentInOneCourse(students, courses) ==>
      Seqs.SumOf(MakeOverview(students, staff, courses).enrollmentData, Value) ==
        MakeOverview(students, staff, courses).totalStudents &&
      Seqs.SumOf(MakeOverview(students, staff, courses).financialData, Value) ==
        MakeOverview(students, staff, courses).totalReceivables
  {
    if EachStudentInOneCourse(students, courses) {
      RegistrarDashboard.EnrollmentByCoursePartition(students, courses);
      FinanceDashboard.ReceivablesByCoursePartition(students, courses);
    }
  }
}
