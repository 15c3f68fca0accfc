/**
 * The registrar overview (pages/registrar/RegistrarDashboard.tsx): enrollment per course,
 * largest first, the enrolled / pending / dropped tallies and the documents awaiting review.
 */
module RegistrarDashboard {
  import opened Types
  import opened CourseTotals
  import Seqs
  import Sorting

  function One(s: Student): int {
    1
  }

  lemma {:induction false} SumOfOnes(s: seq<Student>)
    ensures Seqs.SumOf(s, One) == |s|
  {
    if |s| > 0 {
      SumOfOnes(s[1..]);
    }
  }

  /** The number of students of each course, in course order (also the super admin's `enrollmentData`). */
  function CourseEnrollment(students: seq<Student>, courses: seq<Course>): (r: seq<ChartPoint>)
    ensures |r| == |courses|
    ensures forall i :: 0 <= i < |courses| ==>
      r[i].courseId == courses[i].id && r[i].value == Seqs.Count(students, OfCourse(courses[i].id))
  {
    var r := CoursePoints(students, courses, One);
    forall i | 0 <= i < |courses|
      ensures r[i].value == Seqs.Count(students, OfCourse(courses[i].id))
    {
      SumOfOnes(Seqs.Filter(students, OfCourse(courses[i].id)));
    }
    r
  }

  /** `enrollmentByCourse`: the per-course head counts, largest first. */
  function EnrollmentByCourse(students: seq<Student>, courses: seq<Course>): (r: seq<ChartPoint>)
    ensures multiset(r) == multiset(CourseEnrollment(students, courses)) && |r| == |courses|
    ensures forall i, j :: 0 <= i < j < |r| ==> r[i].value >= r[j].value
  {
    var r := Sorting.SortBy(CourseEnrollment(students, courses), NegValue);
    assert forall i, j :: 0 <= i < j < |r| ==> NegValue(r[i]) <= NegValue(r[j]);
    r
  }

  /** When every student's course id names exactly one course, the bars count every student once. */
  lemma EnrollmentByCoursePartition(students: seq<Student>, courses: seq<Course>)
    requires EachStudentInOneCourse(students, courses)
    ensures Seqs.SumOf(CourseEnrollment(students, courses), Value) == |students|
    ensures Seqs.SumOf(EnrollmentByCourse(students, courses), Value) == |students|
  {
    SumOfOnes(students);
    CoursePointsPartition(students, courses, One, CourseEnrollment(students, courses));
    CoursePointsPartition(students, courses, One, EnrollmentByCourse(students, courses));
  }

  predicate IsEnrolled(s: Student) {
    s.enrollmentStatus.Enrolled?
  }

  predicate IsPending(s: Student) {
    s.enrollmentStatus.Pending?
  }

  predicate IsDropped(s: Student) {
    s.enrollmentStatus.Dropped?
  }

  predicate IsGraduated(s: Student) {
    s.enrollmentStatus.Graduated?
  }

  /** The donut of `statusData`: enrolled, pending and dropped head counts, in that order. */
  datatype StatusData = StatusData(enrolled: nat, pending: nat, dropped: nat)

  function MakeStatusData(students: seq<Student>): StatusData {
    StatusData(Seqs.Count(students, IsEnrolled), Seqs.Count(students, IsPending), Seqs.Count(students, IsDropped))
  }

  /**
   * The four enrollment statuses split the students: the three slices of the donut
   * leave out exactly the graduates.
   */
  lemma {:induction false} StatusPartition(students: seq<Student>)
    ensures Seqs.Count(students, IsEnrolled) + Seqs.Count(students, IsPending) +
            Seqs.Count(students, IsDropped) + Seqs.Count(students, IsGraduated) == |students|
  {
    if |students| > 0 {
      Seqs.CountCons(students, IsEnrolled);
      Seqs.CountCons(students, IsPending);
      Seqs.CountCons(students, IsDropped);
      Seqs.CountCons(students, IsGraduated);
      StatusPartition(students[1..]);
    }
  }

  /** The status tallies never exceed `totalStudents`, and reach it exactly when nobody has graduated. */
  function StatusDataOf(students: seq<Student>): (r: StatusData)
    ensures r.enrolled + r.pending + r.dropped <= |students|
    ensures r.enrolled + r.pending + r.dropped == |students| <==> Seqs.Count(students, IsGraduated) == 0
    ensures r.enrolled == Seqs.Count(students, IsEnrolled)
    ensures r.pending == Seqs.Count(students, IsPending)
    ensures r.dropped == Seqs.Count(students, IsDropped)
  {
    StatusPartition(students);
    MakeStatusData(students)
  }

  predicate IsPendingDoc(d: EnrollmentDocument) {
    d.status.Pending?
  }

  function PendingDocsOf(s: Student): int {
    Seqs.Count(s.documents, IsPendingDoc)
  }

  /** Every student's documents, student by student. */
  function AllDocuments(students: seq<Student>): seq<EnrollmentDocument> {
    if |students| == 0 then [] else students[0].documents + AllDocuments(students[1..])
  }

  /** Adding up the per-student counts counts the pending documents of all students together. */
  lemma {:induction false} PerStudentCountsAddUp(students: seq<Student>)
    ensures Seqs.SumOf(students, PendingDocsOf) == Seqs.Count(AllDocuments(students), IsPendingDoc)
  {
    if |students| > 0 {
      PerStudentCountsAddUp(students[1..]);
      Seqs.CountConcat(students[0].documents, AllDocuments(students[1..]), IsPendingDoc);
    }
  }

  /** `pendingDocs`: the documents awaiting review; none exactly when no student has a pending document. */
  function PendingDocs(students: seq<Student>): (r: int)
    ensures r >= 0
    ensures r == Seqs.Count(AllDocuments(students), IsPendingDoc)
    ensures r == 0 <==> forall i, j :: 0 <= i < |students| && 0 <= j < |students[i].documents| ==>
                          !students[i].documents[j].status.Pending?
  {
    Seqs.SumOfNonNegative(students, PendingDocsOf);
    PerStudentCountsAddUp(students);
    var r := Seqs.SumOf(students, PendingDocsOf);
    assert forall i :: 0 <= i < |students| ==>
      (PendingDocsOf(students[i]) == 0 <==>
       forall j :: 0 <= j < |students[i].documents| ==> !students[i].documents[j].status.Pending?) by {
      forall i | 0 <= i < |students| {
        NoPendingDoc(students[i].documents);
      }
    }
    r
  }

  lemma NoPendingDoc(docs: seq<EnrollmentDocument>)
    ensures Seqs.Count(docs, IsPendingDoc) == 0 <==> forall j :: 0 <= j < |docs| ==> !docs[j].status.Pending?
  {
    var f := Seqs.Filter(docs, IsPendingDoc);
    if |f| > 0 {
      assert f[0] in docs;
    }
  }
}
