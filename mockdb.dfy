/**
 * The in-memory data store (services/mockDb.ts): the balance fold, the per-student
 * ledger updates it performs, and the `MockDatabase` class whose methods update its
 * collections in place.
 */
module MockDb {
  import opened Wrappers
  import opened Types
  import Seqs
  import Strings

  /** The errors the store throws. */
  datatype DbError = StudentNotFound | TransactionNotFound

  function Abs(x: int): (r: int)
    ensures r >= 0 && (r == x || r == -x)
  {
    if x < 0 then -x else x
  }

  // ---------------------------------------------------------------------------
  // The balance

  /** One step of the store's `reduce` callback: it adds exactly the entry's contribution. */
  function Step(acc: int, t: Transaction): (r: int)
    ensures r == acc + Effect(t)
  {
    if t.status == Some(Voided) then acc
    else if t.txType == Payment then acc - Abs(t.amount)
    else if t.txType == Adjustment then acc + t.amount
    else acc + Abs(t.amount)
  }

  /** `transactions.reduce(Step, acc)`; `FoldIsSum` states what it computes. */
  function Fold(acc: int, ts: seq<Transaction>): int
    decreases |ts|
  {
    if |ts| == 0 then acc else Fold(Step(acc, ts[0]), ts[1..])
  }

  /**
   * What one transaction contributes: nothing when voided, minus the magnitude for a
   * payment, the signed amount for an adjustment and the magnitude otherwise.
   */
  function Effect(t: Transaction): (r: int)
    ensures t.status == Some(Voided) ==> r == 0
    ensures t.txType == Payment ==> r <= 0
    ensures t.txType != Payment && t.txType != Adjustment ==> r >= 0
    ensures t.txType == Adjustment && t.status != Some(Voided) ==> r == t.amount
  {
    if t.status == Some(Voided) then 0
    else
      match t.txType
      case Payment => -Abs(t.amount)
      case Adjustment => t.amount
      case _ => Abs(t.amount)
  }

  lemma {:induction false} FoldIsSum(acc: int, ts: seq<Transaction>)
    ensures Fold(acc, ts) == acc + Seqs.SumOf(ts, Effect)
    decreases |ts|
  {
    if |ts| > 0 {
      FoldIsSum(Step(acc, ts[0]), ts[1..]);
    }
  }

  /** `calculateBalance`: the fold from 0 is the sum of the contributions. */
  function CalculateBalance(ts: seq<Transaction>): (r: int)
    ensures r == Seqs.SumOf(ts, Effect)
  {
    FoldIsSum(0, ts);
    Fold(0, ts)
  }

  /** Appending to the front adds the new entry's contribution. */
  lemma BalancePrepend(t: Transaction, ts: seq<Transaction>)
    ensures CalculateBalance([t] + ts) == Effect(t) + CalculateBalance(ts)
  {
    assert ([t] + ts)[1..] == ts;
  }

  /** The balance does not depend on the order of the transactions. */
  lemma BalancePermutation(a: seq<Transaction>, b: seq<Transaction>)
    requires multiset(a) == multiset(b)
    ensures CalculateBalance(a) == CalculateBalance(b)
  {
    Seqs.SumOfPermutation(a, b, Effect);
  }

  /** The intended invariant: the stored balance is the fold of the stored transactions. */
  predicate Balanced(s: Student) {
    s.balance == CalculateBalance(s.transactions)
  }

  predicate AllBalanced(ss: seq<Student>) {
    forall i :: 0 <= i < |ss| ==> Balanced(ss[i])
  }

  // ---------------------------------------------------------------------------
  // Lookups (findIndex)

  function StudentIndex(ss: seq<Student>, id: string): (r: Option<nat>)
    ensures r.Some? ==> r.value < |ss| && ss[r.value].id == id
    ensures r.Some? ==> forall j :: 0 <= j < r.value ==> ss[j].id != id
    ensures r.None? <==> forall j :: 0 <= j < |ss| ==> ss[j].id != id
  {
    Seqs.FindFirst(ss, (s: Student) => s.id == id)
  }

  function TxIndex(ts: seq<Transaction>, id: string): (r: Option<nat>)
    ensures r.Some? ==> r.value < |ts| && ts[r.value].id == id
    ensures r.Some? ==> forall j :: 0 <= j < r.value ==> ts[j].id != id
    ensures r.None? <==> forall j :: 0 <= j < |ts| ==> ts[j].id != id
  {
    Seqs.FindFirst(ts, (t: Transaction) => t.id == id)
  }

  /** Updates that keep every id keep every lookup by id. */
  lemma TxIndexSameIds(a: seq<Transaction>, b: seq<Transaction>, id: string)
    requires |a| == |b|
    requires forall j :: 0 <= j < |a| ==> a[j].id == b[j].id
    ensures TxIndex(a, id) == TxIndex(b, id)
  {
    var ia, ib := TxIndex(a, id), TxIndex(b, id);
    if ia.Some? && ib.Some? {
      assert !(ia.value < ib.value) && !(ib.value < ia.value);
    }
  }

  // ---------------------------------------------------------------------------
  // Per-student ledger updates

  /** `requestTransactionVoid` on one student: the first entry with that id becomes void_requested. */
  function RequestVoidOn(s: Student, txId: string): (r: Student)
    ensures TxIndex(s.transactions, txId).None? ==> r == s
    ensures TxIndex(s.transactions, txId).Some? ==> Balanced(r)
    ensures |r.transactions| == |s.transactions|
    ensures forall j :: 0 <= j < |s.transactions| ==>
      r.transactions[j] == s.transactions[j].(status := r.transactions[j].status)
    ensures forall j :: 0 <= j < |s.transactions| ==>
      r.transactions[j] == (if Some(j) == TxIndex(s.transactions, txId)
                            then s.transactions[j].(status := Some(VoidRequested))
                            else s.transactions[j])
    ensures r == s.(transactions := r.transactions, balance := r.balance)
  {
    match TxIndex(s.transactions, txId)
    case None => s
    case Some(k) =>
      var txs := s.transactions[k := s.transactions[k].(status := Some(VoidRequested))];
      s.(transactions := txs, balance := CalculateBalance(txs))
  }

  /** `approveVoidTransaction` on one student: the first entry with that id becomes voided, whatever it was. */
  function ApproveVoidOn(s: Student, txId: string): (r: Student)
    ensures TxIndex(s.transactions, txId).None? ==> r == s
    ensures TxIndex(s.transactions, txId).Some? ==> Balanced(r)
    ensures |r.transactions| == |s.transactions|
    ensures forall j :: 0 <= j < |s.transactions| ==>
      r.transactions[j] == (if Some(j) == TxIndex(s.transactions, txId)
                            then s.transactions[j].(status := Some(Voided))
                            else s.transactions[j])
    ensures r == s.(transactions := r.transactions, balance := r.balance)
  {
    match TxIndex(s.transactions, txId)
    case None => s
    case Some(k) =>
      var txs := s.transactions[k := s.transactions[k].(status := Some(Voided))];
      s.(transactions := txs, balance := CalculateBalance(txs))
  }

  /** The stored form of a new entry: a missing status defaults to posted. */
  function Posted(tx: Transaction): (r: Transaction)
    ensures r.status.Some? && (tx.status.Some? ==> r.status == tx.status)
    ensures tx.status.None? ==> r.status == Some(TxStatus.Posted)
    ensures r.(status := tx.status) == tx
  {
    tx.(status := Some(tx.status.GetOr(TxStatus.Posted)))
  }

  /** `addTransaction` on one student: the new entry goes first and the balance is refolded. */
  function AddTransactionOn(s: Student, tx: Transaction): (r: Student)
    ensures r.transactions == [Posted(tx)] + s.transactions
    ensures Balanced(r)
    ensures r == s.(transactions := r.transactions, balance := r.balance)
  {
    var txs := [Posted(tx)] + s.transactions;
    s.(transactions := txs, balance := CalculateBalance(txs))
  }

  /** `updateTransaction` on one student: the first entry with the same id is replaced. */
  function UpdateTransactionOn(s: Student, tx: Transaction): (r: Result<Student, DbError>)
    ensures TxIndex(s.transactions, tx.id).None? <==> r == Failure(TransactionNotFound)
    ensures r.Success? ==> Balanced(r.value)
    ensures r.Success? ==> r.value.transactions == s.transactions[TxIndex(s.transactions, tx.id).value := tx]
    ensures r.Success? ==> r.value == s.(transactions := r.value.transactions, balance := r.value.balance)
  {
    match TxIndex(s.transactions, tx.id)
    case None => Failure(TransactionNotFound)
    case Some(k) =>
      var txs := s.transactions[k := tx];
      Success(s.(transactions := txs, balance := CalculateBalance(txs)))
  }

  /** `createStudent`'s record: the balance is refolded only when transactions were given. */
  function CreatedRecord(s: Student): (r: Student)
    ensures |s.transactions| > 0 ==> Balanced(r)
    ensures |s.transactions| == 0 ==> r == s
    ensures r == s.(balance := r.balance)
  {
    if |s.transactions| > 0 then s.(balance := CalculateBalance(s.transactions)) else s
  }

  /** A created record is balanced exactly when it had transactions or its given balance was 0. */
  lemma CreatedRecordBalanced(s: Student)
    ensures Balanced(CreatedRecord(s)) <==> |s.transactions| > 0 || s.balance == 0
  {
    if |s.transactions| == 0 {
      assert CalculateBalance(s.transactions) == 0;
    }
  }

  /** `changePassword` on one student. */
  function ChangePasswordOn(s: Student, newPassword: string): (r: Student)
    ensures r.password == Some(newPassword) && r.isPasswordChanged == Some(true)
    ensures r == s.(password := r.password, isPasswordChanged := r.isPasswordChanged)
  {
    s.(password := Some(newPassword), isPasswordChanged := Some(true))
  }

  /** The reset performed by `resolvePasswordRequest`: a new password that must be changed again. */
  function ResetPasswordOn(s: Student, newPassword: string): (r: Student)
    ensures r.password == Some(newPassword) && r.isPasswordChanged == Some(false)
    ensures r == s.(password := r.password, isPasswordChanged := r.isPasswordChanged)
  {
    s.(password := Some(newPassword), isPasswordChanged := Some(false))
  }

  /** `uploadDocument` on one student: the document is appended. */
  function UploadDocumentOn(s: Student, doc: EnrollmentDocument): (r: Student)
    ensures r.documents == s.documents + [doc]
    ensures r == s.(documents := r.documents)
  {
    s.(documents := s.documents + [doc])
  }

  // ---------------------------------------------------------------------------
  // Partial updates (`{ ...record, ...updates }`)

  /**
   * A `Partial<Student>`: None is an absent key; for an optional field,
   * Some(None) is a key present with value `undefined`.
   */
  datatype StudentPatch = StudentPatch(
    id: Option<string>,
    firstName: Option<string>,
    lastName: Option<string>,
    email: Option<string>,
    contactNumber: Option<Option<string>>,
    password: Option<Option<string>>,
    isPasswordChanged: Option<Option<bool>>,
    studentType: Option<StudentType>,
    courseId: Option<string>,
    yearLevel: Option<int>,
    enrollmentStatus: Option<EnrollmentStatus>,
    balance: Option<int>,
    transactions: Option<seq<Transaction>>,
    academicRecords: Option<seq<EnrolledSubject>>,
    documents: Option<seq<EnrollmentDocument>>,
    role: Option<Option<Role>>)

  const NoStudentChanges := StudentPatch(None, None, None, None, None, None, None, None,
                                         None, None, None, None, None, None, None, None)

  /** The patch the registrar and teacher pages send: `{ academicRecords }`. */
  function RecordsPatch(records: seq<EnrolledSubject>): StudentPatch {
    NoStudentChanges.(academicRecords := Some(records))
  }

  /**
   * What one key of a spread does to one field: a present key sets the field to
   * its value, an absent key keeps the field as it was.
   */
  predicate KeyApplied<T(==)>(key: Option<T>, before: T, after: T) {
    && (key.Some? ==> after == key.value)
    && (key.None? ==> after == before)
  }

  /** `{ ...s, ...updates }` on a student: every field follows its key, and only its key. */
  function MergeStudent(s: Student, p: StudentPatch): (r: Student)
    ensures p == NoStudentChanges ==> r == s
    ensures p.balance.None? && p.transactions.None? ==>
      r.balance == s.balance && r.transactions == s.transactions
    ensures p.academicRecords.Some? ==> r.academicRecords == p.academicRecords.value
    ensures p.id.None? ==> r.id == s.id
    ensures KeyApplied(p.id, s.id, r.id) && KeyApplied(p.firstName, s.firstName, r.firstName)
    ensures KeyApplied(p.lastName, s.lastName, r.lastName) && KeyApplied(p.email, s.email, r.email)
    ensures KeyApplied(p.contactNumber, s.contactNumber, r.contactNumber)
    ensures KeyApplied(p.password, s.password, r.password)
    ensures KeyApplied(p.isPasswordChanged, s.isPasswordChanged, r.isPasswordChanged)
    ensures KeyApplied(p.studentType, s.studentType, r.studentType)
    ensures KeyApplied(p.courseId, s.courseId, r.courseId) && KeyApplied(p.yearLevel, s.yearLevel, r.yearLevel)
    ensures KeyApplied(p.enrollmentStatus, s.enrollmentStatus, r.enrollmentStatus)
    ensures KeyApplied(p.balance, s.balance, r.balance)
    ensures KeyApplied(p.transactions, s.transactions, r.transactions)
    ensures KeyApplied(p.academicRecords, s.academicRecords, r.academicRecords)
    ensures KeyApplied(p.documents, s.documents, r.documents) && KeyApplied(p.role, s.role, r.role)
  {
    Student(
      p.id.GetOr(s.id),
      p.firstName.GetOr(s.firstName),
      p.lastName.GetOr(s.lastName),
      p.email.GetOr(s.email),
      p.contactNumber.GetOr(s.contactNumber),
      p.password.GetOr(s.password),
      p.isPasswordChanged.GetOr(s.isPasswordChanged),
      p.studentType.GetOr(s.studentType),
      p.courseId.GetOr(s.courseId),
      p.yearLevel.GetOr(s.yearLevel),
      p.enrollmentStatus.GetOr(s.enrollmentStatus),
      p.balance.GetOr(s.balance),
      p.transactions.GetOr(s.transactions),
      p.academicRecords.GetOr(s.academicRecords),
      p.documents.GetOr(s.documents),
      p.role.GetOr(s.role))
  }

  /** Sending only new academic records changes only the academic records. */
  lemma RecordsPatchOnlyRecords(s: Student, records: seq<EnrolledSubject>)
    ensures MergeStudent(s, RecordsPatch(records)) == s.(academicRecords := records)
  {
  }

  /** A `Partial<User>`. */
  datatype UserPatch = UserPatch(
    id: Option<string>,
    username: Option<string>,
    role: Option<Role>,
    name: Option<string>,
    department: Option<Option<string>>,
    email: Option<Option<string>>)

  /** `{ ...u, ...updates }` on a staff user. */
  function MergeUser(u: User, p: UserPatch): (r: User)
    ensures p.id.None? ==> r.id == u.id
    ensures p.role.Some? ==> r.role == p.role.value
    ensures p == UserPatch(None, None, None, None, None, None) ==> r == u
    ensures KeyApplied(p.id, u.id, r.id) && KeyApplied(p.username, u.username, r.username)
    ensures KeyApplied(p.role, u.role, r.role) && KeyApplied(p.name, u.name, r.name)
    ensures KeyApplied(p.department, u.department, r.department) && KeyApplied(p.email, u.email, r.email)
  {
    User(p.id.GetOr(u.id), p.username.GetOr(u.username), p.role.GetOr(u.role),
         p.name.GetOr(u.name), p.department.GetOr(u.department), p.email.GetOr(u.email))
  }

  /** A `Partial<Course>`. */
  datatype CoursePatch = CoursePatch(
    id: Option<string>,
    name: Option<string>,
    courseType: Option<StudentType>,
    department: Option<string>,
    adviser: Option<Option<string>>,
    subjects: Option<seq<Subject>>,
    tuitionPerUnit: Option<Option<int>>,
    miscFee: Option<Option<int>>)

  /** `{ ...c, ...updates }` on a course. */
  function MergeCourse(c: Course, p: CoursePatch): (r: Course)
    ensures p.id.None? ==> r.id == c.id
    ensures p.id.Some? ==> r.id == p.id.value
    ensures p.subjects.Some? ==> r.subjects == p.subjects.value
    ensures KeyApplied(p.name, c.name, r.name) && KeyApplied(p.courseType, c.courseType, r.courseType)
    ensures KeyApplied(p.department, c.department, r.department) && KeyApplied(p.adviser, c.adviser, r.adviser)
    ensures KeyApplied(p.subjects, c.subjects, r.subjects)
    ensures KeyApplied(p.tuitionPerUnit, c.tuitionPerUnit, r.tuitionPerUnit)
    ensures KeyApplied(p.miscFee, c.miscFee, r.miscFee)
  {
    Course(p.id.GetOr(c.id), p.name.GetOr(c.name), p.courseType.GetOr(c.courseType),
           p.department.GetOr(c.department), p.adviser.GetOr(c.adviser),
           p.subjects.GetOr(c.subjects), p.tuitionPerUnit.GetOr(c.tuitionPerUnit),
           p.miscFee.GetOr(c.miscFee))
  }

  /** A whole course sent as updates: its optional fields that are absent are absent keys. */
  function CourseAsPatch(c: Course): (p: CoursePatch)
    ensures forall old_: Course :: MergeCourse(old_, p).id == c.id
    ensures forall old_: Course :: MergeCourse(old_, p).subjects == c.subjects
    ensures forall old_: Course ::
      var m := MergeCourse(old_, p);
      m.name == c.name && m.courseType == c.courseType && m.department == c.department
    ensures forall old_: Course ::
      var m := MergeCourse(old_, p);
      && (c.adviser.Some? ==> m.adviser == c.adviser) && (c.adviser.None? ==> m.adviser == old_.adviser)
      && (c.tuitionPerUnit.Some? ==> m.tuitionPerUnit == c.tuitionPerUnit)
      && (c.tuitionPerUnit.None? ==> m.tuitionPerUnit == old_.tuitionPerUnit)
      && (c.miscFee.Some? ==> m.miscFee == c.miscFee) && (c.miscFee.None? ==> m.miscFee == old_.miscFee)
  {
    CoursePatch(Some(c.id), Some(c.name), Some(c.courseType), Some(c.department),
                if c.adviser.Some? then Some(c.adviser) else None,
                Some(c.subjects),
                if c.tuitionPerUnit.Some? then Some(c.tuitionPerUnit) else None,
                if c.miscFee.Some? then Some(c.miscFee) else None)
  }

  // ---------------------------------------------------------------------------
  // Store-level updates: what each method does to the student list

  function RequestVoidIn(ss: seq<Student>, studentId: string, txId: string): (r: seq<Student>)
    ensures |r| == |ss|
    ensures StudentIndex(ss, studentId).None? ==> r == ss
    ensures forall j :: 0 <= j < |ss| ==>
      r[j] == (if StudentIndex(ss, studentId) == Some(j) then RequestVoidOn(ss[j], txId) else ss[j])
  {
    match StudentIndex(ss, studentId)
    case None => ss
    case Some(i) => ss[i := RequestVoidOn(ss[i], txId)]
  }

  function ApproveVoidIn(ss: seq<Student>, studentId: string, txId: string): (r: seq<Student>)
    ensures |r| == |ss|
    ensures StudentIndex(ss, studentId).None? ==> r == ss
    ensures forall j :: 0 <= j < |ss| ==>
      r[j] == (if StudentIndex(ss, studentId) == Some(j) then ApproveVoidOn(ss[j], txId) else ss[j])
  {
    match StudentIndex(ss, studentId)
    case None => ss
    case Some(i) => ss[i := ApproveVoidOn(ss[i], txId)]
  }

  function AddTransactionIn(ss: seq<Student>, studentId: string, tx: Transaction): (r: seq<Student>)
    ensures |r| == |ss|
    ensures StudentIndex(ss, studentId).None? ==> r == ss
    ensures forall j :: 0 <= j < |ss| ==>
      r[j] == (if StudentIndex(ss, studentId) == Some(j) then AddTransactionOn(ss[j], tx) else ss[j])
  {
    match StudentIndex(ss, studentId)
    case None => ss
    case Some(i) => ss[i := AddTransactionOn(ss[i], tx)]
  }

  /** Replacing one balanced student by another keeps every student balanced. */
  lemma ReplaceKeepsBalanced(ss: seq<Student>, i: nat, s: Student)
    requires i < |ss| && AllBalanced(ss) && Balanced(s)
    ensures AllBalanced(ss[i := s])
  {
  }

  lemma RequestVoidInKeepsBalanced(ss: seq<Student>, studentId: string, txId: string)
    requires AllBalanced(ss)
    ensures AllBalanced(RequestVoidIn(ss, studentId, txId))
  {
  }

  lemma ApproveVoidInKeepsBalanced(ss: seq<Student>, studentId: string, txId: string)
    requires AllBalanced(ss)
    ensures AllBalanced(ApproveVoidIn(ss, studentId, txId))
  {
  }

  // ---------------------------------------------------------------------------
  // Properties of the ledger updates

  /** Requesting a void never changes an amount and changes at most the target's status. */
  lemma RequestVoidKeepsAmounts(s: Student, txId: string, j: nat)
    requires j < |s.transactions|
    ensures RequestVoidOn(s, txId).transactions[j].amount == s.transactions[j].amount
    ensures RequestVoidOn(s, txId).transactions[j].txType == s.transactions[j].txType
    ensures RequestVoidOn(s, txId).transactions[j].id == s.transactions[j].id
  {
  }

  /** A void request on an entry that is not already voided leaves the balance as it was. */
  lemma RequestVoidKeepsBalance(s: Student, txId: string)
    requires Balanced(s)
    requires TxIndex(s.transactions, txId).Some? ==>
      s.transactions[TxIndex(s.transactions, txId).value].status != Some(Voided)
    ensures RequestVoidOn(s, txId).balance == s.balance
  {
    match TxIndex(s.transactions, txId)
    case None =>
    case Some(k) =>
      var t := s.transactions[k];
      Seqs.SumOfUpdate(s.transactions, k, t.(status := Some(VoidRequested)), Effect);
  }

  /** Requesting the same void twice is the same as requesting it once. */
  lemma RequestVoidIdempotent(s: Student, txId: string)
    ensures RequestVoidOn(RequestVoidOn(s, txId), txId) == RequestVoidOn(s, txId)
  {
    var once := RequestVoidOn(s, txId);
    TxIndexSameIds(s.transactions, once.transactions, txId);
    match TxIndex(s.transactions, txId)
    case None =>
    case Some(k) =>
      assert once.transactions[k := once.transactions[k].(status := Some(VoidRequested))] == once.transactions;
  }

  /** Approving a void removes exactly that entry's contribution from the balance. */
  lemma ApproveVoidDropsContribution(s: Student, txId: string)
    requires TxIndex(s.transactions, txId).Some?
    ensures ApproveVoidOn(s, txId).balance ==
      CalculateBalance(s.transactions) - Effect(s.transactions[TxIndex(s.transactions, txId).value])
  {
    var k := TxIndex(s.transactions, txId).value;
    Seqs.SumOfUpdate(s.transactions, k, s.transactions[k].(status := Some(Voided)), Effect);
  }

  /** The store does not check the lifecycle: a posted entry is voided without a prior request. */
  lemma ApproveWithoutRequest(s: Student, txId: string)
    requires TxIndex(s.transactions, txId).Some?
    requires s.transactions[TxIndex(s.transactions, txId).value].status == Some(TxStatus.Posted)
    ensures ApproveVoidOn(s, txId).transactions[TxIndex(s.transactions, txId).value].status == Some(Voided)
  {
  }

  /** The store does not check the lifecycle: a voided entry turns back into a void request. */
  lemma RequestAfterVoidGoesBack(s: Student, txId: string)
    requires TxIndex(s.transactions, txId).Some?
    requires s.transactions[TxIndex(s.transactions, txId).value].status == Some(Voided)
    ensures RequestVoidOn(s, txId).transactions[TxIndex(s.transactions, txId).value].status == Some(VoidRequested)
  {
  }

  /** Adding a transaction adds its (defaulted) contribution to the previous fold. */
  lemma AddTransactionBalance(s: Student, tx: Transaction)
    ensures AddTransactionOn(s, tx).balance == Effect(Posted(tx)) + CalculateBalance(s.transactions)
  {
    BalancePrepend(Posted(tx), s.transactions);
  }

  // ---------------------------------------------------------------------------
  // Login

  /** JavaScript truthiness of an optional string. */
  predicate Truthy(s: Option<string>) {
    s.Some? && s.value != ""
  }

  /** The logged-in identity: a staff record, or a student record as login builds it. */
  datatype Session =
    | StaffSession(user: User)
    | StudentSession(profile: Student, username: string, name: string)

  /** The session object built for a student: no password, role student, username and full name added. */
  function StudentSessionOf(s: Student): (r: Session)
    ensures r.StudentSession? && r.profile.password.None? && r.profile.role == Some(StudentRole)
    ensures r.profile == s.(password := None, role := Some(StudentRole))
    ensures r.username == s.firstName && r.name == s.firstName + " " + s.lastName
  {
    StudentSession(s.(password := None, role := Some(StudentRole)), s.firstName, s.firstName + " " + s.lastName)
  }

  function SessionRole(u: Session): Role {
    match u
    case StaffSession(user) => user.role
    case StudentSession(_, _, _) => StudentRole
  }

  function SessionId(u: Session): string {
    match u
    case StaffSession(user) => user.id
    case StudentSession(p, _, _) => p.id
  }

  /** A student matches if the lower-cased first names agree and the password is equal or not given. */
  predicate StudentMatches(s: Student, username: string, password: Option<string>) {
    Strings.Lower(s.firstName) == Strings.Lower(username) && (s.password == password || !Truthy(password))
  }

  predicate StaffMatches(u: User, username: string) {
    u.username == username
  }

  // ---------------------------------------------------------------------------
  // Fixtures

  function InitialCourses(): seq<Course> {
    [Bscs(), Bsba(), Grade11(), Grade12()]
  }

  function Bscs(): Course {
    Course("BSCS", "BS Computer Science", College, "College of Science", Some("Mr. Keating"),
           [ Subject("CS101", "Intro to Computing", 3, Some(1), Some(1)),
             Subject("CS102", "Computer Programming 1", 3, Some(1), Some(1)),
             Subject("MATH1", "Calculus 1", 4, Some(1), Some(1)),
             Subject("ENG1", "Purposive Communication", 3, Some(1), Some(1)),
             Subject("CS103", "Data Structures", 3, Some(1), Some(2)),
             Subject("CS104", "Discrete Structures", 3, Some(1), Some(2)) ],
           Some(1200), Some(5000))
  }

  function Bsba(): Course {
    Course("BSBA", "BS Business Administration", College, "College of Business", Some("Mrs. Krabappel"),
           [ Subject("BA101", "Principles of Management", 3, Some(1), Some(1)),
             Subject("MKT101", "Principles of Marketing", 3, Some(1), Some(1)),
             Subject("ACCT1", "Financial Accounting", 3, Some(1), Some(1)),
             Subject("ECO1", "Microeconomics", 3, Some(1), Some(2)) ],
           Some(1000), Some(4500))
  }

  function Grade11(): Course {
    Course("G11", "Grade 11 - STEM", HighSchool, "High School", Some("Mr. White"),
           [ Subject("G11-M1", "General Mathematics", 1, None, None),
             Subject("G11-S1", "Earth Science", 1, None, None),
             Subject("G11-E1", "Oral Communication", 1, None, None),
             Subject("G11-PE", "Physical Education", 1, None, None) ],
           Some(0), Some(15000))
  }

  function Grade12(): Course {
    Course("G12", "Grade 12 - STEM", HighSchool, "High School", Some("Mrs. Krabappel"),
           [ Subject("G12-M2", "Statistics & Probability", 1, None, None),
             Subject("G12-S2", "Physics 1", 1, None, None),
             Subject("G12-P2", "Capstone Project", 1, None, None) ],
           Some(0), Some(15500))
  }

  /** The two fixture transactions of the first student. */
  function AliceTransactions(): seq<Transaction> {
    [ Transaction("t1", 20240115, 20000, Tuition, "Tuition Assessment", "system", Some(TxStatus.Posted)),
      Transaction("t2", 20240201, -14500, Payment, "Partial Payment", "finance_admin", Some(TxStatus.Posted)) ]
  }

  function InitialStudents(): seq<Student> {
    [ Student("2024-001", "Alice", "Rivera", "alice.r@crimson.edu", Some("0917-123-4567"),
              Some("tempPassword123"), Some(true), College, "BSCS", 1, EnrollmentStatus.Enrolled, 5500,
              AliceTransactions(),
              [ EnrolledSubject("CS101", "Intro to Computing", 3, None, None, Some(NumericGrade(1.5)),
                                Completed, Some("1st Sem 2023"), Some("Mr. Keating")),
                EnrolledSubject("CS102", "Computer Programming 1", 3, None, None, Some(NumericGrade(1.75)),
                                Completed, Some("1st Sem 2023"), Some("Ms. Honey")),
                EnrolledSubject("CS103", "Data Structures", 3, None, None, Some(TextGrade("")),
                                RecordStatus.Enrolled, Some("2nd Sem 2024"), Some("Mr. Keating")),
                EnrolledSubject("CS104", "Discrete Structures", 3, None, None, Some(TextGrade("")),
                                RecordStatus.Enrolled, Some("2nd Sem 2024"), Some("Mr. Keating")) ],
              [ EnrollmentDocument("d1", "Form 137.pdf", "application/pdf", "2024-01-10", "", Approved) ],
              None),
      Student("2024-002", "John", "Doe", "john.doe@crimson.edu", Some("0919-987-6543"),
              Some("password"), Some(false), HighSchool, "G12", 12, EnrollmentStatus.Pending, 15500,
              [ Transaction("t3", 20240801, 15500, Tuition, "Annual School Fees", "system", Some(TxStatus.Posted)) ],
              [ EnrolledSubject("G12-M2", "Statistics & Probability", 1, None, None, None,
                                RecordStatus.Enrolled, Some("AY 2024-2025"), Some("Mrs. Krabappel")),
                EnrolledSubject("G12-S2", "Physics 1", 1, None, None, None,
                                RecordStatus.Enrolled, Some("AY 2024-2025"), Some("Mr. White")) ],
              [], None) ]
  }

  function InitialUsers(): seq<User> {
    [ User("u1", "registrar", Registrar, "Regina Mills", None, Some("registrar@cosca.edu")),
      User("u2", "finance", Finance, "Fiona Cash", None, Some("finance@cosca.edu")),
      User("u3", "teacher", Teacher, "Mr. Keating", Some("College of Science"), Some("keating@cosca.edu")),
      User("u4", "admin", SuperAdmin, "System Administrator", None, Some("admin@cosca.edu")),
      User("u5", "krabappel", Teacher, "Mrs. Krabappel", Some("High School"), Some("krabappel@cosca.edu")) ]
  }

  function InitialConfig(): SystemConfig {
    SystemConfig("2024-2025", "1st Semester",
                 ["College of Science", "College of Business", "High School", "College of Arts"])
  }

  /** The fixture balances agree with their transactions: 20000 - 14500 = 5500, and 15500. */
  lemma InitialStudentsBalanced()
    ensures AllBalanced(InitialStudents())
  {
    var alice := AliceTransactions();
    assert CalculateBalance(alice) == Effect(alice[0]) + Effect(alice[1]) by {
      assert alice[1..][1..] == [];
    }
    var john := InitialStudents()[1].transactions;
    assert CalculateBalance(john) == Effect(john[0]) by {
      assert john[1..] == [];
    }
  }

  /** Posting an adjustment of -2000 on the 5500 fixture balance leaves 3500. */
  lemma AdjustmentExample(s: Student, id: string, date: int)
    requires s == InitialStudents()[0]
    ensures AddTransactionOn(s, Transaction(id, date, -2000, Adjustment, "", "", None)).balance == 3500
  {
    InitialStudentsBalanced();
    AddTransactionBalance(s, Transaction(id, date, -2000, Adjustment, "", "", None));
  }

  /** Voiding the -14500 payment of the fixture brings its balance back to 20000. */
  lemma VoidPaymentExample(s: Student)
    requires s == InitialStudents()[0]
    ensures ApproveVoidOn(s, "t2").balance == 20000
  {
    InitialStudentsBalanced();
    assert TxIndex(s.transactions, "t2") == Some(1) by {
      assert s.transactions[0].id != "t2";
    }
    ApproveVoidDropsContribution(s, "t2");
  }

  // ---------------------------------------------------------------------------
  // The store

  class MockDatabase {
    var students: seq<Student>
    var users: seq<User>
    var courses: seq<Course>
    var passwordRequests: seq<PasswordRequest>
    var config: SystemConfig

    /** The class invariant the ledger methods re-establish. */
    predicate Ledgered()
      reads this
    {
      AllBalanced(students)
    }

    /** `stored` is the student list found in local storage, if any. */
    constructor (stored: Option<seq<Student>>)
      ensures students == (if stored.Some? then stored.value else InitialStudents())
      ensures users == InitialUsers() && courses == InitialCourses()
      ensures passwordRequests == [] && config == InitialConfig()
      ensures stored.None? ==> Ledgered()
    {
      students := if stored.Some? then stored.value else InitialStudents();
      users := InitialUsers();
      courses := InitialCourses();
      passwordRequests := [];
      config := InitialConfig();
      InitialStudentsBalanced();
    }

    /**
     * `login`: a staff username match wins, without a password check; otherwise the
     * first student whose first name matches case-insensitively and whose password is
     * equal or not given.
     */
    method Login(username: string, password: Option<string>) returns (r: Option<Session>)
      ensures Seqs.FindFirst(users, (u: User) => StaffMatches(u, username)).Some? ==>
        r == Some(StaffSession(users[Seqs.FindFirst(users, (u: User) => StaffMatches(u, username)).value]))
      ensures r.Some? && r.value.StaffSession? ==> r.value.user in users && r.value.user.username == username
      ensures r.Some? && r.value.StudentSession? ==>
        (forall j :: 0 <= j < |users| ==> users[j].username != username) &&
        exists i :: 0 <= i < |students| && StudentMatches(students[i], username, password) &&
                    (forall j :: 0 <= j < i ==> !StudentMatches(students[j], username, password)) &&
                    r == Some(StudentSessionOf(students[i]))
      ensures r.None? <==>
        (forall j :: 0 <= j < |users| ==> users[j].username != username) &&
        (forall i :: 0 <= i < |students| ==> !StudentMatches(students[i], username, password))
    {
      var staff := Seqs.FindFirst(users, (u: User) => StaffMatches(u, username));
      if staff.Some? {
        return Some(StaffSession(users[staff.value]));
      }
      var found := Seqs.FindFirst(students, (s: Student) => StudentMatches(s, username, password));
      if found.None? {
        return None;
      }
      var st := students[found.value];
      if Truthy(password) && st.password != password {
        return None;
      }
      r := Some(StudentSessionOf(st));
    }

    method ChangePassword(studentId: string, newPassword: string) returns (r: Result<(), DbError>)
      modifies this
      ensures StudentIndex(old(students), studentId).None? ==>
        r == Failure(StudentNotFound) && students == old(students)
      ensures StudentIndex(old(students), studentId).Some? ==>
        var i := StudentIndex(old(students), studentId).value;
        r == Success(()) && students == old(students)[i := ChangePasswordOn(old(students)[i], newPassword)]
      ensures users == old(users) && courses == old(courses)
      ensures passwordRequests == old(passwordRequests) && config == old(config)
      ensures old(Ledgered()) ==> Ledgered()
    {
      var index := StudentIndex(students, studentId);
      if index.None? {
        return Failure(StudentNotFound);
      }
      students := students[index.value := ChangePasswordOn(students[index.value], newPassword)];
      r := Success(());
    }

    method RequestTransactionVoid(studentId: string, transactionId: string) returns (r: Result<Student, DbError>)
      modifies this
      ensures students == RequestVoidIn(old(students), studentId, transactionId)
      ensures StudentIndex(old(students), studentId).None? <==> r == Failure(StudentNotFound)
      ensures r.Success? ==> r.value == students[StudentIndex(old(students), studentId).value]
      ensures users == old(users) && courses == old(courses)
      ensures passwordRequests == old(passwordRequests) && config == old(config)
      ensures old(Ledgered()) ==> Ledgered()
    {
      var index := StudentIndex(students, studentId);
      if index.None? {
        return Failure(StudentNotFound);
      }
      var s := RequestVoidOn(students[index.value], transactionId);
      if old(Ledgered()) {
        RequestVoidInKeepsBalanced(students, studentId, transactionId);
      }
      students := students[index.value := s];
      r := Success(s);
    }

    method GetStudents() returns (r: seq<Student>)
      ensures r == students
    {
      r := students;
    }

    method GetCourses() returns (r: seq<Course>)
      ensures r == courses
    {
      r := courses;
    }

    /** `createStudent`: appends the record, refolding its balance only when it has transactions. */
    method CreateStudent(student: Student) returns (r: Student)
      modifies this
      ensures r == CreatedRecord(student)
      ensures students == old(students) + [r]
      ensures users == old(users) && courses == old(courses)
      ensures passwordRequests == old(passwordRequests) && config == old(config)
      ensures Ledgered() <==> old(Ledgered()) && (|student.transactions| > 0 || student.balance == 0)
    {
      r := CreatedRecord(student);
      CreatedRecordBalanced(student);
      students := students + [r];
      assert students[|students| - 1] == r;
      assert forall i :: 0 <= i < |old(students)| ==> students[i] == old(students)[i];
    }

    /** `updateStudent`: merges arbitrary fields, so the ledger invariant is kept only if balance and transactions are untouched. */
    method UpdateStudent(id: string, updates: StudentPatch) returns (r: Result<Student, DbError>)
      modifies this
      ensures StudentIndex(old(students), id).None? ==>
        r == Failure(StudentNotFound) && students == old(students)
      ensures StudentIndex(old(students), id).Some? ==>
        var i := StudentIndex(old(students), id).value;
        students == old(students)[i := MergeStudent(old(students)[i], updates)] && r == Success(students[i])
      ensures users == old(users) && courses == old(courses)
      ensures passwordRequests == old(passwordRequests) && config == old(config)
      ensures old(Ledgered()) && updates.balance.None? && updates.transactions.None? ==> Ledgered()
    {
      var index := StudentIndex(students, id);
      if index.None? {
        return Failure(StudentNotFound);
      }
      var merged := MergeStudent(students[index.value], updates);
      students := students[index.value := merged];
      r := Success(merged);
    }

    /** `addTransaction`: the new entry is put first, status defaulted to posted, balance refolded. */
    method AddTransaction(studentId: string, transaction: Transaction) returns (r: Result<Student, DbError>)
      modifies this
      ensures students == AddTransactionIn(old(students), studentId, transaction)
      ensures StudentIndex(old(students), studentId).None? <==> r == Failure(StudentNotFound)
      ensures r.Success? ==> r.value == students[StudentIndex(old(students), studentId).value]
      ensures users == old(users) && courses == old(courses)
      ensures passwordRequests == old(passwordRequests) && config == old(config)
      ensures old(Ledgered()) ==> Ledgered()
    {
      var index := StudentIndex(students, studentId);
      if index.None? {
        return Failure(StudentNotFound);
      }
      var s := AddTransactionOn(students[index.value], transaction);
      students := students[index.value := s];
      r := Success(s);
    }

    /** `updateTransaction`: replaces the entry with the same id and refolds the balance. */
    method UpdateTransaction(studentId: string, transaction: Transaction) returns (r: Result<Student, DbError>)
      modifies this
      ensures StudentIndex(old(students), studentId).None? ==>
        r == Failure(StudentNotFound) && students == old(students)
      ensures StudentIndex(old(students), studentId).Some? ==>
        var i := StudentIndex(old(students), studentId).value;
        match UpdateTransactionOn(old(students)[i], transaction)
        case Failure(e) => r == Failure(e) && students == old(students)
        case Success(s) => r == Success(s) && students == old(students)[i := s]
      ensures users == old(users) && courses == old(courses)
      ensures passwordRequests == old(passwordRequests) && config == old(config)
      ensures old(Ledgered()) ==> Ledgered()
    {
      var index := StudentIndex(students, studentId);
      if index.None? {
        return Failure(StudentNotFound);
      }
      var updated := UpdateTransactionOn(students[index.value], transaction);
      if updated.Failure? {
        return Failure(updated.error);
      }
      students := students[index.value := updated.value];
      r := Success(updated.value);
    }

    method UploadDocument(studentId: string, doc: EnrollmentDocument) returns (r: Result<Student, DbError>)
      modifies this
      ensures StudentIndex(old(students), studentId).None? ==>
        r == Failure(StudentNotFound) && students == old(students)
      ensures StudentIndex(old(students), studentId).Some? ==>
        var i := StudentIndex(old(students), studentId).value;
        students == old(students)[i := UploadDocumentOn(old(students)[i], doc)] && r == Success(students[i])
      ensures users == old(users) && courses == old(courses)
      ensures passwordRequests == old(passwordRequests) && config == old(config)
      ensures old(Ledgered()) ==> Ledgered()
    {
      var index := StudentIndex(students, studentId);
      if index.None? {
        return Failure(StudentNotFound);
      }
      var s := UploadDocumentOn(students[index.value], doc);
      students := students[index.value := s];
      r := Success(s);
    }

    method GetUsers() returns (r: seq<User>)
      ensures r == users
    {
      r := users;
    }

    method AddUser(user: User)
      modifies this
      ensures users == old(users) + [user]
      ensures students == old(students) && courses == old(courses)
      ensures passwordRequests == old(passwordRequests) && config == old(config)
    {
      users := users + [user];
    }

    /** `updateUser`: merges into the first user with that id; an unknown id is a silent no-op. */
    method UpdateUser(id: string, updates: UserPatch)
      modifies this
      ensures users == UpdateUserIn(old(users), id, updates)
      ensures students == old(students) && courses == old(courses)
      ensures passwordRequests == old(passwordRequests) && config == old(config)
    {
      var index := Seqs.FindFirst(users, (u: User) => u.id == id);
      if index.Some? {
        users := users[index.value := MergeUser(users[index.value], updates)];
      }
    }

    method GetSystemConfig() returns (r: SystemConfig)
      ensures r == config
    {
      r := config;
    }

    method UpdateSystemConfig(newConfig: SystemConfig)
      modifies this
      ensures config == newConfig
      ensures students == old(students) && users == old(users) && courses == old(courses)
      ensures passwordRequests == old(passwordRequests)
    {
      config := newConfig;
    }

    method AddCourse(course: Course)
      modifies this
      ensures courses == old(courses) + [course]
      ensures students == old(students) && users == old(users)
      ensures passwordRequests == old(passwordRequests) && config == old(config)
    {
      courses := courses + [course];
    }

    /** `updateCourse`: merges into the first course with that id; an unknown id is a silent no-op. */
    method UpdateCourse(id: string, updates: CoursePatch)
      modifies this
      ensures courses == UpdateCourseIn(old(courses), id, updates)
      ensures students == old(students) && users == old(users)
      ensures passwordRequests == old(passwordRequests) && config == old(config)
    {
      courses := UpdateCourseIn(courses, id, updates);
    }

    /** `createPasswordRequest`: `id` and `requestDate` stand for the clock readings. */
    method CreatePasswordRequest(email: string, userType: UserType, id: string, requestDate: string)
      modifies this
      ensures passwordRequests == old(passwordRequests) + [PasswordRequest(id, "", userType, email, RequestStatus.Pending, requestDate)]
      ensures students == old(students) && users == old(users)
      ensures courses == old(courses) && config == old(config)
    {
      passwordRequests := passwordRequests + [PasswordRequest(id, "", userType, email, RequestStatus.Pending, requestDate)];
    }

    /** `getPasswordRequests`: only the pending ones, in order. */
    method GetPasswordRequests() returns (r: seq<PasswordRequest>)
      ensures r == Seqs.Filter(passwordRequests, (q: PasswordRequest) => q.status == RequestStatus.Pending)
      ensures forall i :: 0 <= i < |r| ==> r[i].status == RequestStatus.Pending && r[i] in passwordRequests
      ensures forall i :: 0 <= i < |passwordRequests| && passwordRequests[i].status == RequestStatus.Pending ==>
        passwordRequests[i] in r
    {
      r := Seqs.Filter(passwordRequests, (q: PasswordRequest) => q.status == RequestStatus.Pending);
    }

    /**
     * `resolvePasswordRequest`: marks the first request with that id resolved and resets
     * the first student with the request's email.
     */
    method ResolvePasswordRequest(requestId: string, newPass: string)
      modifies this
      ensures var k := Seqs.FindFirst(old(passwordRequests), (q: PasswordRequest) => q.id == requestId);
        if k.None? then passwordRequests == old(passwordRequests) && students == old(students)
        else
          passwordRequests == old(passwordRequests)[k.value := old(passwordRequests)[k.value].(status := Resolved)] &&
          var email := old(passwordRequests)[k.value].email;
          var si := Seqs.FindFirst(old(students), (s: Student) => s.email == email);
          students == (if si.Some? then old(students)[si.value := ResetPasswordOn(old(students)[si.value], newPass)]
                       else old(students))
      ensures users == old(users) && courses == old(courses) && config == old(config)
      ensures old(Ledgered()) ==> Ledgered()
    {
      var index := Seqs.FindFirst(passwordRequests, (q: PasswordRequest) => q.id == requestId);
      if index.Some? {
        passwordRequests := passwordRequests[index.value := passwordRequests[index.value].(status := Resolved)];
        var email := passwordRequests[index.value].email;
        var sIndex := Seqs.FindFirst(students, (s: Student) => s.email == email);
        if sIndex.Some? {
          students := students[sIndex.value := ResetPasswordOn(students[sIndex.value], newPass)];
        }
      }
    }

    /** `approveVoidTransaction`: silent no-op for an unknown student or entry; no prior request is needed. */
    method ApproveVoidTransaction(studentId: string, transactionId: string)
      modifies this
      ensures students == ApproveVoidIn(old(students), studentId, transactionId)
      ensures users == old(users) && courses == old(courses)
      ensures passwordRequests == old(passwordRequests) && config == old(config)
      ensures old(Ledgered()) ==> Ledgered()
    {
      var index := StudentIndex(students, studentId);
      if index.Some? {
        if old(Ledgered()) {
          ApproveVoidInKeepsBalanced(students, studentId, transactionId);
        }
        students := students[index.value := ApproveVoidOn(students[index.value], transactionId)];
      }
    }
  }

  /** The staff list after `updateUser(id, updates)`: only the first user with that id is merged. */
  function UpdateUserIn(users: seq<User>, id: string, updates: UserPatch): (r: seq<User>)
    ensures |r| == |users|
    ensures (forall j :: 0 <= j < |users| ==> users[j].id != id) ==> r == users
    ensures forall j :: 0 <= j < |users| && users[j] != r[j] ==>
      users[j].id == id && r[j] == MergeUser(users[j], updates) &&
      forall i :: 0 <= i < j ==> users[i].id != id
    ensures forall k :: 0 <= k < |users| && users[k].id == id && (forall i :: 0 <= i < k ==> users[i].id != id) ==>
      r[k] == MergeUser(users[k], updates)
    ensures forall k :: 0 <= k < |users| && (users[k].id != id || exists i :: 0 <= i < k && users[i].id == id) ==>
      r[k] == users[k]
  {
    match Seqs.FindFirst(users, (u: User) => u.id == id)
    case None => users
    case Some(k) => users[k := MergeUser(users[k], updates)]
  }

  /** The course list after `updateCourse(id, updates)`. */
  function UpdateCourseIn(cs: seq<Course>, id: string, updates: CoursePatch): (r: seq<Course>)
    ensures |r| == |cs|
    ensures (forall j :: 0 <= j < |cs| ==> cs[j].id != id) ==> r == cs
    ensures forall j :: 0 <= j < |cs| && cs[j] != r[j] ==>
      cs[j].id == id && r[j] == MergeCourse(cs[j], updates) &&
      forall i :: 0 <= i < j ==> cs[i].id != id
    ensures forall k :: 0 <= k < |cs| && cs[k].id == id && (forall i :: 0 <= i < k ==> cs[i].id != id) ==>
      r[k] == MergeCourse(cs[k], updates)
    ensures forall k :: 0 <= k < |cs| && (cs[k].id != id || exists i :: 0 <= i < k && cs[i].id == id) ==>
      r[k] == cs[k]
  {
    match Seqs.FindFirst(cs, (c: Course) => c.id == id)
    case None => cs
    case Some(k) => cs[k := MergeCourse(cs[k], updates)]
  }
}
