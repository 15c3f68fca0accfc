/**
 * Per-course series of the dashboards: for each course, a chart point whose value adds up
 * a per-student term over the students of that course. The finance pages add balances and
 * the registrar pages add one per student; when every student's course id names exactly one
 * course, the points add up to the term summed over all students.
 */
module CourseTotals {
  import opened Types
  import Seqs

  /** A bar of a chart: the course id (the chart label) and its value. */
  datatype ChartPoint = ChartPoint(courseId: string, value: int)

  function Value(p: ChartPoint): int {
    p.value
  }

  /** `s => s.courseId === id`. */
  function OfCourse(id: string): Student -> bool {
    (s: Student) => s.courseId == id
  }

  /** `c => c.id === id`. */
  function HasId(id: string): Course -> bool {
    (c: Course) => c.id == id
  }

  /** The term `w` added up over the students of course `id`. */
  function CourseTotal(students: seq<Student>, id: string, w: Student -> int): int {
    Seqs.SumOf(Seqs.Filter(students, OfCourse(id)), w)
  }

  function CoursePoint(students: seq<Student>, w: Student -> int): Course -> ChartPoint {
    (c: Course) => ChartPoint(c.id, CourseTotal(students, c.id, w))
  }

  /** `courses.map(c => ({label: c.id, value: ...}))`: one point per course, in course order. */
  function CoursePoints(students: seq<Student>, courses: seq<Course>, w: Student -> int): (r: seq<ChartPoint>)
    ensures |r| == |courses|
    ensures forall i :: 0 <= i < |courses| ==>
      r[i].courseId == courses[i].id && r[i].value == CourseTotal(students, courses[i].id, w)
  {
    Seqs.Map(courses, CoursePoint(students, w))
  }

  /** Every student's course id names exactly one course. */
  predicate EachStudentInOneCourse(students: seq<Student>, courses: seq<Course>) {
    forall i :: 0 <= i < |students| ==> Seqs.Count(courses, HasId(students[i].courseId)) == 1
  }

  /** The course totals added up over the courses. */
  function SumOverCourses(students: seq<Student>, courses: seq<Course>, w: Student -> int): int
    decreases |courses|
  {
    if |courses| == 0 then 0
    else CourseTotal(students, courses[0].id, w) + SumOverCourses(students, courses[1..], w)
  }

  lemma CourseTotalCons(s: Student, rest: seq<Student>, id: string, w: Student -> int)
    ensures CourseTotal([s] + rest, id, w) == (if s.courseId == id then w(s) else 0) + CourseTotal(rest, id, w)
  {
    var f := Seqs.Filter(rest, OfCourse(id));
    assert ([s] + rest)[0] == s && ([s] + rest)[1..] == rest;
    assert Seqs.Filter([s] + rest, OfCourse(id)) == (if s.courseId == id then [s] else []) + f;
    if s.courseId == id {
      assert ([s] + f)[0] == s && ([s] + f)[1..] == f;
    } else {
      assert [] + f == f;
    }
  }

  /** What one student adds to the sum over the courses: its term once per course carrying its id. */
  function Share(s: Student, courses: seq<Course>, w: Student -> int): int
    decreases |courses|
  {
    if |courses| == 0 then 0
    else (if courses[0].id == s.courseId then w(s) else 0) + Share(s, courses[1..], w)
  }

  lemma {:induction false} SumOverCoursesCons(s: Student, rest: seq<Student>, courses: seq<Course>, w: Student -> int)
    ensures SumOverCourses([s] + rest, courses, w) == Share(s, courses, w) + SumOverCourses(rest, courses, w)
    decreases |courses|
  {
    if |courses| > 0 {
      CourseTotalCons(s, rest, courses[0].id, w);
      SumOverCoursesCons(s, rest, courses[1..], w);
    }
  }

  lemma CountStep(courses: seq<Course>, id: string)
    requires |courses| > 0
    ensures Seqs.Count(courses, HasId(id)) ==
            (if courses[0].id == id then 1 else 0) + Seqs.Count(courses[1..], HasId(id))
  {
  }

  lemma {:induction false} ShareOfNone(s: Student, courses: seq<Course>, w: Student -> int)
    requires Seqs.Count(courses, HasId(s.courseId)) == 0
    ensures Share(s, courses, w) == 0
    decreases |courses|
  {
    if |courses| > 0 {
      CountStep(courses, s.courseId);
      ShareOfNone(s, courses[1..], w);
    }
  }

  /** A student whose course id names exactly one course is counted exactly once. */
  lemma {:induction false} ShareOfOne(s: Student, courses: seq<Course>, w: Student -> int)
    requires Seqs.Count(courses, HasId(s.courseId)) == 1
    ensures Share(s, courses, w) == w(s)
    decreases |courses|
  {
    CountStep(courses, s.courseId);
    if courses[0].id == s.courseId {
      ShareOfNone(s, courses[1..], w);
    } else {
      ShareOfOne(s, courses[1..], w);
    }
  }

  lemma {:induction false} SumOverCoursesEmpty(students: seq<Student>, courses: seq<Course>, w: Student -> int)
    requires |students| == 0
    ensures SumOverCourses(students, courses, w) == 0
    decreases |courses|
  {
    if |courses| > 0 {
      SumOverCoursesEmpty(students, courses[1..], w);
    }
  }

  lemma {:induction false} SumOverCoursesIsTotal(students: seq<Student>, courses: seq<Course>, w: Student -> int)
    requires EachStudentInOneCourse(students, courses)
    ensures SumOverCourses(students, courses, w) == Seqs.SumOf(students, w)
    decreases |students|
  {
    if |students| == 0 {
      SumOverCoursesEmpty(students, courses, w);
    } else {
      var rest := students[1..];
      assert students == [students[0]] + rest;
      assert EachStudentInOneCourse(rest, courses) by {
        forall i | 0 <= i < |rest| ensures Seqs.Count(courses, HasId(rest[i].courseId)) == 1 {
          assert rest[i] == students[i + 1];
        }
      }
      SumOverCoursesCons(students[0], rest, courses, w);
      ShareOfOne(students[0], courses, w);
      SumOverCoursesIsTotal(rest, courses, w);
    }
  }

  lemma {:induction false} CoursePointsSum(students: seq<Student>, courses: seq<Course>, w: Student -> int)
    ensures Seqs.SumOf(CoursePoints(students, courses, w), Value) == SumOverCourses(students, courses, w)
    decreases |courses|
  {
    if |courses| > 0 {
      assert CoursePoints(students, courses, w)[1..] == CoursePoints(students, courses[1..], w);
      CoursePointsSum(students, courses[1..], w);
    }
  }

  /**
   * When every student's course id names exactly one course, the series, in any order,
   * adds up to the term summed over all students.
   */
  lemma CoursePointsPartition(students: seq<Student>, courses: seq<Course>, w: Student -> int, points: seq<ChartPoint>)
    requires EachStudentInOneCourse(students, courses)
    requires multiset(points) == multiset(CoursePoints(students, courses, w))
    ensures Seqs.SumOf(points, Value) == Seqs.SumOf(students, w)
  {
    CoursePointsSum(students, courses, w);
    SumOverCoursesIsTotal(students, courses, w);
    Seqs.SumOfPermutation(points, CoursePoints(students, courses, w), Value);
  }

  function NegValue(p: ChartPoint): int {
    -p.value
  }
}
