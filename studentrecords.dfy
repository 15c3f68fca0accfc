/**
 * The registrar page's rules (pages/registrar/StudentRecords.tsx): student seeding
 * without a ledger entry, adding a subject to a student's load, the subjects still
 * available, and the status labels. Its student search is
 * `StudentAccounts.FilteredStudents`.
 */
module StudentRecords {
  import opened Wrappers
  import opened Types
  import Seqs
  import MockDb
  import StudentAccounts

  /**
   * `handleAddStudent`'s record: the same subjects and amount as the finance seeding,
   * but the amount goes straight into `balance` with no transaction, no contact number
   * and no password-changed flag. `password` and `id` stand for the random values.
   */
  function RegistrarSeed(courses: seq<Course>, form: StudentAccounts.NewStudentForm, password: string, id: string)
    : (r: Student)
    ensures r.balance == StudentAccounts.SeedAmount(FindCourse(courses, form.courseId)) && r.transactions == []
    ensures r.academicRecords == StudentAccounts.SeedSubjects(FindCourse(courses, form.courseId))
    ensures r.isPasswordChanged.None? && r.contactNumber.None? && r.password == Some(password)
    ensures r.enrollmentStatus == EnrollmentStatus.Pending && r.yearLevel == 1 && r.documents == []
    ensures r.id == id && r.courseId == form.courseId
  {
    var course := FindCourse(courses, form.courseId);
    Student(id, form.firstName, form.lastName, form.email, None, Some(password), None, form.studentType,
            form.courseId, 1, EnrollmentStatus.Pending, StudentAccounts.SeedAmount(course), [],
            StudentAccounts.SeedSubjects(course), [], None)
  }

  /** Once stored, a registrar-seeded student is balanced only if the seeded amount is 0. */
  lemma RegistrarSeedBalancedIff(courses: seq<Course>, form: StudentAccounts.NewStudentForm, password: string, id: string)
    ensures MockDb.Balanced(MockDb.CreatedRecord(RegistrarSeed(courses, form, password, id)))
      <==> StudentAccounts.SeedAmount(FindCourse(courses, form.courseId)) == 0
  {
    MockDb.CreatedRecordBalanced(RegistrarSeed(courses, form, password, id));
  }

  lemma FindBscs()
    ensures FindCourse(MockDb.InitialCourses(), "BSCS") == Some(MockDb.Bscs())
  {
    assert MockDb.InitialCourses()[0] == MockDb.Bscs();
  }

  /** Of the six fixture BS Computer Science subjects, the first four are year 1, semester 1. */
  lemma BscsFirstTerm()
    ensures Seqs.Filter(MockDb.Bscs().subjects, FirstTerm) == MockDb.Bscs().subjects[..4]
  {
    var subs := MockDb.Bscs().subjects;
    assert subs == subs[..4] + subs[4..];
    var rest := subs[4..];
    assert !FirstTerm(rest[0]) && !FirstTerm(rest[1]);
    assert rest[1..][1..] == [];
    assert Seqs.Filter(rest, FirstTerm) == [];
    Seqs.FilterAll(subs[..4], FirstTerm);
    Seqs.FilterConcat(subs[..4], rest, FirstTerm);
  }

  /** Enrolling into the fixture BS Computer Science course seeds 13 units: 1200 * 13 + 5000 = 20600. */
  lemma BscsSeedAmount()
    ensures StudentAccounts.SeedAmount(FindCourse(MockDb.InitialCourses(), "BSCS")) == 20600
  {
    FindBscs();
    BscsCourseSeedAmount();
  }

  lemma BscsCourseSeedAmount()
    ensures StudentAccounts.SeedAmount(Some(MockDb.Bscs())) == 20600
  {
    var c := MockDb.Bscs();
    calc {
      Seqs.SumOf(StudentAccounts.SeedSubjects(Some(c)), StudentAccounts.RecordUnits);
      { StudentAccounts.SeededUnits(c); }
      Seqs.SumOf(Seqs.Filter(c.subjects, FirstTerm), StudentAccounts.SubjectUnits);
      { BscsFirstTerm(); }
      Seqs.SumOf(c.subjects[..4], StudentAccounts.SubjectUnits);
      { BscsFirstTermUnits(); }
      13;
    }
  }

  lemma BscsFirstTermUnits()
    ensures Seqs.SumOf(MockDb.Bscs().subjects[..4], StudentAccounts.SubjectUnits) == 13
  {
    var subs := MockDb.Bscs().subjects[..4];
    var f := StudentAccounts.SubjectUnits;
    assert f(subs[0]) == 3 && f(subs[1]) == 3 && f(subs[2]) == 4 && f(subs[3]) == 3;
    assert subs == [subs[0]] + ([subs[1]] + ([subs[2]] + [subs[3]]));
    Seqs.SumOfSingleton(subs[3], f);
    Seqs.SumOfCons(subs[2], [subs[3]], f);
    Seqs.SumOfCons(subs[1], [subs[2]] + [subs[3]], f);
    Seqs.SumOfCons(subs[0], [subs[1]] + ([subs[2]] + [subs[3]]), f);
  }

  /** So the BS Computer Science registrar seed is stored with a balance its empty ledger does not back. */
  lemma BscsRegistrarSeedUnbalanced(form: StudentAccounts.NewStudentForm, password: string, id: string)
    requires form.courseId == "BSCS"
    ensures !MockDb.Balanced(MockDb.CreatedRecord(RegistrarSeed(MockDb.InitialCourses(), form, password, id)))
  {
    BscsSeedAmount();
    RegistrarSeedBalancedIff(MockDb.InitialCourses(), form, password, id);
  }

  // ---------------------------------------------------------------------------
  // Subject load

  /** `course.subjects.find(s => s.code === code)`. */
  function FindSubject(subjects: seq<Subject>, code: string): (r: Option<Subject>)
    ensures r.Some? ==> r.value in subjects && r.value.code == code
    ensures r.Some? ==> exists k ::
      0 <= k < |subjects| && subjects[k] == r.value && forall j :: 0 <= j < k ==> subjects[j].code != code
    ensures r.None? <==> forall j :: 0 <= j < |subjects| ==> subjects[j].code != code
  {
    Seqs.Find(subjects, (s: Subject) => s.code == code)
  }

  /** The subject definition for a code in the student's course, if any. */
  function SubjectDef(courses: seq<Course>, s: Student, code: string): Option<Subject> {
    match FindCourse(courses, s.courseId)
    case None => None
    case Some(c) => FindSubject(c.subjects, code)
  }

  /** The record added for a subject: enrolled, grade '', term 'Current Term', instructor 'TBA'. */
  function AddedRecord(def: Subject): (r: EnrolledSubject)
    ensures r.code == def.code && r.name == def.name && r.units == def.units
    ensures r.yearLevel == def.yearLevel && r.semester == def.semester
    ensures r.status == RecordStatus.Enrolled && r.grade == Some(TextGrade(""))
    ensures r.term == Some("Current Term") && r.instructor == Some("TBA")
  {
    EnrolledSubject(def.code, def.name, def.units, def.yearLevel, def.semester, Some(TextGrade("")),
                    RecordStatus.Enrolled, Some("Current Term"), Some("TBA"))
  }

  /**
   * `handleAddSubject`: the new academic-record list sent to `updateStudent`, or None
   * when no student is selected or the code is not in the student's course.
   */
  function HandleAddSubject(courses: seq<Course>, selected: Option<Student>, code: string)
    : (r: Option<seq<EnrolledSubject>>)
    ensures r.Some? <==> selected.Some? && SubjectDef(courses, selected.value, code).Some?
    ensures r.Some? ==>
      |r.value| == |selected.value.academicRecords| + 1 &&
      r.value[..|selected.value.academicRecords|] == selected.value.academicRecords &&
      r.value[|selected.value.academicRecords|] == AddedRecord(SubjectDef(courses, selected.value, code).value) &&
      r.value[|selected.value.academicRecords|].code == code
  {
    if selected.None? then None
    else
      match SubjectDef(courses, selected.value, code)
      case None => None
      case Some(def) => Some(selected.value.academicRecords + [AddedRecord(def)])
  }

  predicate HasRecord(records: seq<EnrolledSubject>, code: string) {
    exists i :: 0 <= i < |records| && records[i].code == code
  }

  /** `availableSubjects`: the course subjects whose code the student has no record for. */
  function AvailableSubjects(courses: seq<Course>, selected: Option<Student>): (r: seq<Subject>)
    ensures selected.None? ==> r == []
    ensures selected.Some? && FindCourse(courses, selected.value.courseId).None? ==> r == []
    ensures selected.Some? ==> forall i :: 0 <= i < |r| ==> !HasRecord(selected.value.academicRecords, r[i].code)
    ensures selected.Some? ==> forall i :: 0 <= i < |r| ==> r[i] in FindCourse(courses, selected.value.courseId).value.subjects
    ensures selected.Some? && FindCourse(courses, selected.value.courseId).Some? ==>
      var subjects := FindCourse(courses, selected.value.courseId).value.subjects;
      forall j :: 0 <= j < |subjects| && !HasRecord(selected.value.academicRecords, subjects[j].code) ==> subjects[j] in r
    ensures selected.Some? && FindCourse(courses, selected.value.courseId).Some? ==>
      var subjects := FindCourse(courses, selected.value.courseId).value.subjects;
      && Seqs.Subsequence(r, subjects)
      && forall x :: multiset(r)[x] ==
           if HasRecord(selected.value.academicRecords, x.code) then 0 else multiset(subjects)[x]
  {
    if selected.None? then []
    else
      match FindCourse(courses, selected.value.courseId)
      case None => []
      case Some(c) =>
        var unrecorded := (sub: Subject) => !HasRecord(selected.value.academicRecords, sub.code);
        Seqs.FilterMultiplicity(c.subjects, unrecorded);
        Seqs.FilterIsSubsequence(c.subjects, unrecorded);
        Seqs.Filter(c.subjects, unrecorded)
  }

  /**
   * Adding an available subject grows the load by one record and takes that code off
   * the available list.
   */
  lemma AddingAvailableSubject(courses: seq<Course>, s: Student, code: string)
    requires exists i :: 0 <= i < |AvailableSubjects(courses, Some(s))| && AvailableSubjects(courses, Some(s))[i].code == code
    ensures HandleAddSubject(courses, Some(s), code).Some?
    ensures var records := HandleAddSubject(courses, Some(s), code).value;
      |records| == |s.academicRecords| + 1 &&
      forall i :: 0 <= i < |AvailableSubjects(courses, Some(s.(academicRecords := records)))| ==>
        AvailableSubjects(courses, Some(s.(academicRecords := records)))[i].code != code
  {
    var i :| 0 <= i < |AvailableSubjects(courses, Some(s))| && AvailableSubjects(courses, Some(s))[i].code == code;
    var sub := AvailableSubjects(courses, Some(s))[i];
    var c := FindCourse(courses, s.courseId).value;
    assert sub in c.subjects;
    var records := HandleAddSubject(courses, Some(s), code).value;
    assert records[|s.academicRecords|].code == code;
    assert HasRecord(records, code);
  }

  // ---------------------------------------------------------------------------
  // Labels

  datatype BillingStatus = Unpaid(amount: int) | FullyPaid

  /** The billing status: 'Unpaid' with the amount iff something is owed, else 'Fully Paid'. */
  function BillingLabel(s: Student): (r: BillingStatus)
    ensures r.Unpaid? <==> s.balance > 0
    ensures r.Unpaid? ==> r.amount == s.balance
  {
    if s.balance > 0 then Unpaid(s.balance) else FullyPaid
  }

  /** The enrollment badge: green for enrolled, yellow for pending, red otherwise. */
  function EnrollmentBadge(status: EnrollmentStatus): (r: Badge)
    ensures r == Green <==> status.Enrolled?
    ensures r == Yellow <==> status.Pending?
    ensures r == Red <==> status.Graduated? || status.Dropped?
  {
    if status.Enrolled? then Green
    else if status.Pending? then Yellow
    else Red
  }
}
