/**
 * The records of the school portal. Optional TypeScript fields are `Option`s
 * (None = absent or `undefined`); amounts, units and fees are integers; a
 * transaction date is an ordered day number.
 */
module Types {
  import opened Wrappers
  import Seqs

  /** The five portal roles. */
  datatype Role = Registrar | Finance | StudentRole | Teacher | SuperAdmin

  datatype StudentType = College | HighSchool

  /** The five kinds of ledger entry. */
  datatype TxType = Tuition | Misc | Lab | Payment | Adjustment

  /** The void lifecycle of a ledger entry. */
  datatype TxStatus = Posted | VoidRequested | Voided

  datatype Transaction = Transaction(
    id: string,
    date: int,
    amount: int,
    txType: TxType,
    description: string,
    recordedBy: string,
    status: Option<TxStatus>)

  /** A curriculum entry; high-school subjects have no year level or semester. */
  datatype Subject = Subject(
    code: string,
    name: string,
    units: int,
    yearLevel: Option<int>,
    semester: Option<int>)

  datatype Course = Course(
    id: string,
    name: string,
    courseType: StudentType,
    department: string,
    adviser: Option<string>,
    subjects: seq<Subject>,
    tuitionPerUnit: Option<int>,
    miscFee: Option<int>)

  datatype RecordStatus = Enrolled | Completed | Dropped | Failed

  /** A grade is a number (1.5) or a string ('' before grading). */
  datatype Grade = NumericGrade(number: real) | TextGrade(text: string)

  /** A subject on a student's academic record: the subject's fields plus grade, status, term, instructor. */
  datatype EnrolledSubject = EnrolledSubject(
    code: string,
    name: string,
    units: int,
    yearLevel: Option<int>,
    semester: Option<int>,
    grade: Option<Grade>,
    status: RecordStatus,
    term: Option<string>,
    instructor: Option<string>)

  datatype DocumentStatus = Pending | Approved | Rejected

  datatype EnrollmentDocument = EnrollmentDocument(
    id: string,
    name: string,
    mimeType: string,
    uploadDate: string,
    url: string,
    status: DocumentStatus)

  datatype EnrollmentStatus = Pending | Enrolled | Graduated | Dropped

  /** A student; `balance` is stored next to the transactions it should summarise. */
  datatype Student = Student(
    id: string,
    firstName: string,
    lastName: string,
    email: string,
    contactNumber: Option<string>,
    password: Option<string>,
    isPasswordChanged: Option<bool>,
    studentType: StudentType,
    courseId: string,
    yearLevel: int,
    enrollmentStatus: EnrollmentStatus,
    balance: int,
    transactions: seq<Transaction>,
    academicRecords: seq<EnrolledSubject>,
    documents: seq<EnrollmentDocument>,
    role: Option<Role>)

  /** A staff account. */
  datatype User = User(
    id: string,
    username: string,
    role: Role,
    name: string,
    department: Option<string>,
    email: Option<string>)

  datatype UserType = StudentUser | StaffUser

  datatype RequestStatus = Pending | Resolved

  datatype PasswordRequest = PasswordRequest(
    id: string,
    userId: string,
    userType: UserType,
    email: string,
    status: RequestStatus,
    requestDate: string)

  datatype SystemConfig = SystemConfig(
    academicYear: string,
    semester: string,
    departments: seq<string>)

  /** A record whose year level and semester are both 1: the first-term seeding filter. */
  predicate FirstTerm(s: Subject) {
    s.yearLevel == Some(1) && s.semester == Some(1)
  }

  /** Subjects without a year level or a semester are never seeded. */
  lemma UntermedSubjectNotFirstTerm(s: Subject)
    requires s.yearLevel.None? || s.semester.None?
    ensures !FirstTerm(s)
  {
  }

  /** An absent fee is charged as 0. */
  function FeeOrZero(fee: Option<int>): (r: int)
    ensures fee.None? ==> r == 0
    ensures fee.Some? ==> r == fee.value
  {
    fee.GetOr(0)
  }

  /** JavaScript truthiness of a grade: absent, 0 and '' are falsy. */
  predicate GradeTruthy(g: Option<Grade>) {
    match g
    case None => false
    case Some(NumericGrade(x)) => x != 0.0
    case Some(TextGrade(t)) => t != ""
  }

  /** `courses.find(c => c.id === id)`. */
  function FindCourse(courses: seq<Course>, id: string): (r: Option<Course>)
    ensures r.Some? ==> r.value in courses && r.value.id == id
    ensures r.Some? ==> exists k ::
      0 <= k < |courses| && courses[k] == r.value && forall j :: 0 <= j < k ==> courses[j].id != id
    ensures r.None? <==> forall j :: 0 <= j < |courses| ==> courses[j].id != id
  {
    Seqs.Find(courses, (c: Course) => c.id == id)
  }

  /** The colour of a status badge. */
  datatype Badge = Green | Yellow | Red
}
