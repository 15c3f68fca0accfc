/**
 * The finance overview (pages/finance/FinanceDashboard.tsx): receivables, paid and
 * unpaid counts, and receivables per course, largest first.
 */
module FinanceDashboard {
  import opened Types
  import opened CourseTotals
  import Seqs
  import Sorting

  function Balance(s: Student): int {
    s.balance
  }

  /** `students.reduce((acc, s) => acc + s.balance, 0)`. */
  function TotalReceivables(students: seq<Student>): (r: int)
    ensures |students| == 0 ==> r == 0
    ensures |students| > 0 ==>
      r == TotalReceivables(students[..|students| - 1]) + students[|students| - 1].balance
    ensures (forall i :: 0 <= i < |students| ==> students[i].balance >= 0) ==>
      r >= 0 && (r == 0 <==> forall i :: 0 <= i < |students| ==> students[i].balance == 0)
  {
    var total := Seqs.SumOf(students, Balance);
    ReduceStep(students);
    if forall i :: 0 <= i < |students| ==> Balance(students[i]) >= 0 then
      Seqs.SumOfNonNegative(students, Balance);
      total
    else
      total
  }

  /** The left-to-right `reduce` adds the last balance to the total of the ones before it. */
  lemma ReduceStep(students: seq<Student>)
    ensures |students| > 0 ==>
      Seqs.SumOf(students, Balance) == Seqs.SumOf(students[..|students| - 1], Balance) + students[|students| - 1].balance
  {
    if |students| > 0 {
      var n := |students|;
      assert students == students[..n - 1] + [students[n - 1]];
      Seqs.SumOfConcat(students[..n - 1], [students[n - 1]], Balance);
      Seqs.SumOfSingleton(students[n - 1], Balance);
    }
  }

  /** Receivables never come from students in credit: with no positive balance there is nothing to collect. */
  lemma {:induction false} NoDebtNoReceivables(students: seq<Student>)
    requires forall i :: 0 <= i < |students| ==> students[i].balance <= 0
    ensures TotalReceivables(students) <= 0
    ensures TotalReceivables(students) == 0 <==> forall i :: 0 <= i < |students| ==> students[i].balance == 0
    decreases |students|
  {
    if |students| > 0 {
      var rest := students[1..];
      assert forall i :: 0 <= i < |rest| ==> rest[i] == students[i + 1];
      NoDebtNoReceivables(rest);
      if TotalReceivables(students) == 0 {
        forall i | 0 <= i < |students| ensures students[i].balance == 0 {
          if i > 0 {
            assert students[i] == rest[i - 1];
          }
        }
      }
    }
  }

  predicate IsPaid(s: Student) {
    s.balance <= 0
  }

  predicate IsUnpaid(s: Student) {
    s.balance > 0
  }

  /** `paidCount`: the students owing nothing. */
  function PaidCount(students: seq<Student>): (r: nat)
    ensures r <= |students|
    ensures r == 0 <==> forall i :: 0 <= i < |students| ==> students[i].balance > 0
  {
    var paid := Seqs.Filter(students, IsPaid);
    if |paid| > 0 then
      assert paid[0] in students;
      |paid|
    else
      |paid|
  }

  /** `unpaidCount = students.length - paidCount`: exactly the students owing something. */
  function UnpaidCount(students: seq<Student>): (r: nat)
    ensures r + PaidCount(students) == |students|
    ensures r == Seqs.Count(students, IsUnpaid)
  {
    Seqs.CountComplement(students, IsPaid, IsUnpaid);
    |students| - PaidCount(students)
  }

  /** The balances of the students of one course. */
  function CourseBalance(students: seq<Student>, id: string): int {
    CourseTotal(students, id, Balance)
  }

  /** The per-course receivables in course order (also the super admin's `financialData`). */
  function CourseReceivables(students: seq<Student>, courses: seq<Course>): (r: seq<ChartPoint>)
    ensures |r| == |courses|
    ensures forall i :: 0 <= i < |courses| ==>
      r[i].courseId == courses[i].id &&
      r[i].value == Seqs.SumOf(Seqs.Filter(students, OfCourse(courses[i].id)), Balance)
  {
    CoursePoints(students, courses, Balance)
  }

  /** `receivablesByCourse`: the per-course receivables, largest first. */
  function ReceivablesByCourse(students: seq<Student>, courses: seq<Course>): (r: seq<ChartPoint>)
    ensures multiset(r) == multiset(CourseReceivables(students, courses)) && |r| == |courses|
    ensures forall i, j :: 0 <= i < j < |r| ==> r[i].value >= r[j].value
  {
    var r := Sorting.SortBy(CourseReceivables(students, courses), NegValue);
    assert forall i, j :: 0 <= i < j < |r| ==> NegValue(r[i]) <= NegValue(r[j]);
    r
  }

  /**
   * When every student's course id names exactly one course, the per-course values
   * (in either order) add up to the total receivables.
   */
  lemma ReceivablesByCoursePartition(students: seq<Student>, courses: seq<Course>)
    requires EachStudentInOneCourse(students, courses)
    ensures Seqs.SumOf(CourseReceivables(students, courses), Value) == TotalReceivables(students)
    ensures Seqs.SumOf(ReceivablesByCourse(students, courses), Value) == TotalReceivables(students)
  {
    CoursePointsPartition(students, courses, Balance, CourseReceivables(students, courses));
    CoursePointsPartition(students, courses, Balance, ReceivablesByCourse(students, courses));
  }
}
