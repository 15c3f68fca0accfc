/**
 * The finance page's derivation rules (pages/finance/StudentAccounts.tsx): the
 * chronological running-balance ledger, the assessment formula, new-student
 * seeding, the transaction form guard and the list filters.
 */
module StudentAccounts {
  import opened Wrappers
  import opened Types
  import Seqs
  import Sorting
  import Strings
  import MockDb

  // ---------------------------------------------------------------------------
  // Student search (the registrar page applies the same rule)

  /** Last name contains the term ignoring case, or the id contains it exactly. */
  predicate SearchMatch(s: Student, term: string) {
    Strings.IncludesIgnoreCase(s.lastName, term) || Strings.Includes(s.id, term)
  }

  function FilteredStudents(students: seq<Student>, term: string): (r: seq<Student>)
    ensures forall i :: 0 <= i < |r| ==> SearchMatch(r[i], term) && r[i] in students
    ensures forall i :: 0 <= i < |students| && SearchMatch(students[i], term) ==> students[i] in r
    ensures multiset(r) <= multiset(students)
    ensures forall x :: multiset(r)[x] == if SearchMatch(x, term) then multiset(students)[x] else 0
    ensures Seqs.Subsequence(r, students)
  {
    var matching := (s: Student) => SearchMatch(s, term);
    Seqs.FilterMultiplicity(students, matching);
    Seqs.FilterIsSubsequence(students, matching);
    Seqs.Filter(students, matching)
  }

  /** An empty search keeps every student, in order. */
  lemma EmptySearchKeepsAll(students: seq<Student>)
    ensures FilteredStudents(students, "") == students
  {
    forall i | 0 <= i < |students| ensures SearchMatch(students[i], "") {
      Strings.EmptyIncluded(students[i].id);
    }
    Seqs.FilterAll(students, (s: Student) => SearchMatch(s, ""));
  }

  // ---------------------------------------------------------------------------
  // Assessment

  datatype Assessment = Assessment(tuition: int, misc: int, total: int, units: int)

  predicate IsEnrolledRecord(r: EnrolledSubject) {
    r.status == RecordStatus.Enrolled
  }

  function RecordUnits(r: EnrolledSubject): int {
    r.units
  }

  /** Units of the records currently being taken. */
  function EnrolledUnits(records: seq<EnrolledSubject>): int {
    Seqs.SumOf(Seqs.Filter(records, IsEnrolledRecord), RecordUnits)
  }

  /**
   * `calculateAssessment`: all zeros without a course; otherwise the enrolled units
   * times the per-unit rate (a falsy rate charges nothing) plus the misc fee.
   */
  function CalculateAssessment(courses: seq<Course>, s: Student): (r: Assessment)
    ensures FindCourse(courses, s.courseId).None? ==> r == Assessment(0, 0, 0, 0)
    ensures FindCourse(courses, s.courseId).Some? ==>
      var c := FindCourse(courses, s.courseId).value;
      r.units == EnrolledUnits(s.academicRecords) &&
      r.tuition == r.units * FeeOrZero(c.tuitionPerUnit) &&
      r.misc == FeeOrZero(c.miscFee)
    ensures r.total == r.tuition + r.misc
  {
    match FindCourse(courses, s.courseId)
    case None => Assessment(0, 0, 0, 0)
    case Some(c) =>
      var units := EnrolledUnits(s.academicRecords);
      var tuition := if c.tuitionPerUnit.Some? && c.tuitionPerUnit.value != 0 then units * c.tuitionPerUnit.value else 0;
      var misc := FeeOrZero(c.miscFee);
      Assessment(tuition, misc, tuition + misc, units)
  }

  // ---------------------------------------------------------------------------
  // The running-balance ledger

  datatype LedgerRow = LedgerRow(tx: Transaction, balanceAfter: int)

  function DateKey(t: Transaction): int {
    t.date
  }

  /** The ascending-date copy the ledger walks. */
  function ChronologicalOrder(ts: seq<Transaction>): (r: seq<Transaction>)
    ensures Sorting.SortedBy(r, DateKey)
    ensures multiset(r) == multiset(ts) && |r| == |ts|
  {
    Sorting.SortBy(ts, DateKey)
  }

  /** The running balance after the first `m` entries of the walk. */
  function BalanceAfter(sorted: seq<Transaction>, m: nat): int
    requires m <= |sorted|
  {
    MockDb.CalculateBalance(sorted[..m])
  }

  /** One more step of the walk adds that entry's contribution. */
  lemma BalanceAfterStep(sorted: seq<Transaction>, m: nat)
    requires m < |sorted|
    ensures BalanceAfter(sorted, m + 1) == BalanceAfter(sorted, m) + MockDb.Effect(sorted[m])
  {
    assert sorted[..m + 1] == sorted[..m] + [sorted[m]];
    Seqs.SumOfConcat(sorted[..m], [sorted[m]], MockDb.Effect);
    Seqs.SumOfSingleton(sorted[m], MockDb.Effect);
  }

  /** A voided row carries the running balance of the row before it. */
  lemma VoidedRowCarries(sorted: seq<Transaction>, m: nat)
    requires m < |sorted| && sorted[m].status == Some(Voided)
    ensures BalanceAfter(sorted, m + 1) == BalanceAfter(sorted, m)
  {
    BalanceAfterStep(sorted, m);
  }

  /** After the whole walk the running balance is the stored fold. */
  lemma FullWalkIsBalance(ts: seq<Transaction>)
    ensures BalanceAfter(ChronologicalOrder(ts), |ts|) == MockDb.CalculateBalance(ts)
  {
    var sorted := ChronologicalOrder(ts);
    assert sorted[..|ts|] == sorted;
    MockDb.BalancePermutation(sorted, ts);
  }

  /**
   * `transactionHistoryWithBalance`: walk the transactions in date order keeping a
   * running balance, then list the rows newest first.
   */
  method TransactionHistoryWithBalance(selected: Option<Student>) returns (rows: seq<LedgerRow>)
    ensures selected.None? ==> rows == []
    ensures selected.Some? ==>
      var sorted := ChronologicalOrder(selected.value.transactions);
      |rows| == |sorted| &&
      forall k :: 0 <= k < |rows| ==>
        rows[k] == LedgerRow(sorted[|sorted| - 1 - k], BalanceAfter(sorted, |sorted| - k))
    ensures selected.Some? && |rows| > 0 ==>
      rows[0].balanceAfter == MockDb.CalculateBalance(selected.value.transactions)
    ensures forall i, j :: 0 <= i < j < |rows| ==> rows[i].tx.date >= rows[j].tx.date
  {
    if selected.None? {
      return [];
    }
    var sorted := ChronologicalOrder(selected.value.transactions);
    var runningBalance := 0;
    var withBalance: seq<LedgerRow> := [];
    var i := 0;
    while i < |sorted|
      invariant 0 <= i <= |sorted|
      invariant runningBalance == BalanceAfter(sorted, i)
      invariant withBalance == Walk(sorted, i)
    {
      var tx := sorted[i];
      BalanceAfterStep(sorted, i);
      var effect := StepEffect(tx);
      runningBalance := runningBalance + effect;
      WalkStep(sorted, i);
      withBalance := withBalance + [LedgerRow(tx, runningBalance)];
      i := i + 1;
    }
    rows := Seqs.Reversed(withBalance);
    NewestFirst(sorted, withBalance, rows);
    assert sorted == ChronologicalOrder(selected.value.transactions);
    assert forall k :: 0 <= k < |rows| ==>
      rows[k] == LedgerRow(sorted[|sorted| - 1 - k], BalanceAfter(sorted, |sorted| - k));
    if |rows| > 0 {
      FullWalkIsBalance(selected.value.transactions);
    }
  }

  /**
   * One step of the walk: a voided entry adds nothing, a payment subtracts, an adjustment
   * adds its signed amount, anything else adds. The page repeats the store's rule in its
   * own loop, so this is the loop's copy of `MockDb.Effect`, proved equal to it.
   */
  method StepEffect(tx: Transaction) returns (effect: int)
    ensures effect == MockDb.Effect(tx)
  {
    effect := 0;
    if tx.status != Some(Voided) {
      if tx.txType == Payment {
        effect := -MockDb.Abs(tx.amount);
      } else if tx.txType == Adjustment {
        effect := tx.amount;
      } else {
        effect := MockDb.Abs(tx.amount);
      }
    }
  }

  /** The first `m` rows of the walk, each with the running balance after it. */
  function Walk(sorted: seq<Transaction>, m: nat): (r: seq<LedgerRow>)
    requires m <= |sorted|
    ensures |r| == m
    ensures forall j :: 0 <= j < m ==> r[j] == LedgerRow(sorted[j], BalanceAfter(sorted, j + 1))
  {
    seq(m, j requires 0 <= j < m => LedgerRow(sorted[j], BalanceAfter(sorted, j + 1)))
  }

  /** One more step of the walk appends one row. */
  lemma WalkStep(sorted: seq<Transaction>, m: nat)
    requires m < |sorted|
    ensures Walk(sorted, m + 1) == Walk(sorted, m) + [LedgerRow(sorted[m], BalanceAfter(sorted, m + 1))]
  {
  }

  /** Listing the date-sorted walk backwards: row k is step n-1-k, and the latest dates come first. */
  lemma NewestFirst(sorted: seq<Transaction>, walk: seq<LedgerRow>, rows: seq<LedgerRow>)
    requires Sorting.SortedBy(sorted, DateKey)
    requires walk == Walk(sorted, |sorted|)
    requires rows == Seqs.Reversed(walk)
    ensures |rows| == |sorted|
    ensures forall k :: 0 <= k < |rows| ==>
      rows[k] == LedgerRow(sorted[|sorted| - 1 - k], BalanceAfter(sorted, |sorted| - k))
    ensures forall i, j :: 0 <= i < j < |rows| ==> rows[i].tx.date >= rows[j].tx.date
  {
    forall i, j | 0 <= i < j < |rows| ensures rows[i].tx.date >= rows[j].tx.date {
      assert DateKey(sorted[|sorted| - 1 - j]) <= DateKey(sorted[|sorted| - 1 - i]);
    }
  }

  // ---------------------------------------------------------------------------
  // New-student seeding (shared with the registrar page)

  /** The record a first-term subject becomes on enrollment. */
  function SeedRecord(s: Subject): (r: EnrolledSubject)
    ensures r.code == s.code && r.name == s.name && r.units == s.units
    ensures r.yearLevel == s.yearLevel && r.semester == s.semester
    ensures r.grade.None? && r.status == RecordStatus.Enrolled
    ensures r.term == Some("1st Sem 2024") && r.instructor == Some("TBA")
  {
    EnrolledSubject(s.code, s.name, s.units, s.yearLevel, s.semester, None,
                    RecordStatus.Enrolled, Some("1st Sem 2024"), Some("TBA"))
  }

  /** The course's year-1/semester-1 subjects as enrolled records, in curriculum order. */
  function SeedRecords(c: Course): (r: seq<EnrolledSubject>)
    ensures r == Seqs.Map(Seqs.Filter(c.subjects, FirstTerm), SeedRecord)
    ensures |r| == |Seqs.Filter(c.subjects, FirstTerm)|
    ensures forall i :: 0 <= i < |r| ==>
      exists j :: 0 <= j < |c.subjects| && FirstTerm(c.subjects[j]) && r[i] == SeedRecord(c.subjects[j])
    ensures forall j :: 0 <= j < |c.subjects| && FirstTerm(c.subjects[j]) ==> SeedRecord(c.subjects[j]) in r
  {
    var kept := Seqs.Filter(c.subjects, FirstTerm);
    var r := Seqs.Map(kept, SeedRecord);
    forall i | 0 <= i < |r|
      ensures exists j :: 0 <= j < |c.subjects| && FirstTerm(c.subjects[j]) && r[i] == SeedRecord(c.subjects[j])
    {
      assert kept[i] in c.subjects;
      var j :| 0 <= j < |c.subjects| && c.subjects[j] == kept[i];
      assert FirstTerm(c.subjects[j]) && r[i] == SeedRecord(c.subjects[j]);
    }
    forall j | 0 <= j < |c.subjects| && FirstTerm(c.subjects[j]) ensures SeedRecord(c.subjects[j]) in r {
      Seqs.MapFilterHas(c.subjects, FirstTerm, SeedRecord, j);
    }
    r
  }

  /** `initialSubjects`: the course's year-1/semester-1 subjects as enrolled records; none without a course. */
  function SeedSubjects(course: Option<Course>): (r: seq<EnrolledSubject>)
    ensures course.None? ==> r == []
    ensures course.Some? ==> r == SeedRecords(course.value)
    ensures forall i :: 0 <= i < |r| ==>
      r[i].status == RecordStatus.Enrolled && r[i].term == Some("1st Sem 2024") && r[i].instructor == Some("TBA")
  {
    match course
    case None => []
    case Some(c) =>
      var r := SeedRecords(c);
      forall i | 0 <= i < |r| ensures r[i].status == RecordStatus.Enrolled && r[i].term == Some("1st Sem 2024")
      {
        var j :| 0 <= j < |c.subjects| && FirstTerm(c.subjects[j]) && r[i] == SeedRecord(c.subjects[j]);
      }
      r
  }

  function SubjectUnits(s: Subject): int {
    s.units
  }

  /** The seeded units are the units of the course's first-term subjects. */
  lemma SeededUnits(c: Course)
    ensures Seqs.SumOf(SeedSubjects(Some(c)), RecordUnits) == Seqs.SumOf(Seqs.Filter(c.subjects, FirstTerm), SubjectUnits)
  {
    Seqs.SumOfMap(Seqs.Filter(c.subjects, FirstTerm), SeedRecord, RecordUnits, SubjectUnits);
  }

  /** The seeded units: every seeded record is enrolled, so they are the assessed units too. */
  lemma SeededUnitsAreEnrolledUnits(course: Option<Course>)
    ensures EnrolledUnits(SeedSubjects(course)) == Seqs.SumOf(SeedSubjects(course), RecordUnits)
  {
    Seqs.FilterAll(SeedSubjects(course), IsEnrolledRecord);
  }

  /** `(tuitionPerUnit || 0) * totalUnits + (miscFee || 0)` for the chosen course. */
  function SeedAmount(course: Option<Course>): (r: int)
    ensures course.None? ==> r == 0
    ensures course.Some? ==>
      r == FeeOrZero(course.value.tuitionPerUnit) * Seqs.SumOf(Seqs.Filter(course.value.subjects, FirstTerm), SubjectUnits)
           + FeeOrZero(course.value.miscFee)
  {
    var units := Seqs.SumOf(SeedSubjects(course), RecordUnits);
    match course
    case None => 0
    case Some(c) =>
      SeededUnits(c);
      FeeOrZero(c.tuitionPerUnit) * units + FeeOrZero(c.miscFee)
  }

  /** The add-student form. */
  datatype NewStudentForm = NewStudentForm(
    firstName: string,
    lastName: string,
    email: string,
    contactNumber: string,
    studentType: StudentType,
    courseId: string)

  /**
   * `handleCreateStudent`'s record. `password`, `id` and `txId` stand for the random
   * values and `today` for the current date.
   */
  function FinanceSeed(courses: seq<Course>, form: NewStudentForm, password: string, id: string,
                       txId: string, today: int): (r: Student)
    ensures var amount := SeedAmount(FindCourse(courses, form.courseId));
      r.transactions == [Transaction(txId, today, amount, Tuition, "Initial Enrollment Assessment",
                                     "finance_admin", Some(TxStatus.Posted))] &&
      r.balance == amount
    ensures r.academicRecords == SeedSubjects(FindCourse(courses, form.courseId))
    ensures r.enrollmentStatus == EnrollmentStatus.Pending && r.isPasswordChanged == Some(false) && r.yearLevel == 1
    ensures r.password == Some(password) && r.documents == [] && r.id == id && r.courseId == form.courseId
  {
    var course := FindCourse(courses, form.courseId);
    var amount := SeedAmount(course);
    Student(id, form.firstName, form.lastName, form.email, Some(form.contactNumber), Some(password),
            Some(false), form.studentType, form.courseId, 1, EnrollmentStatus.Pending, amount,
            [Transaction(txId, today, amount, Tuition, "Initial Enrollment Assessment", "finance_admin",
                         Some(TxStatus.Posted))],
            SeedSubjects(course), [], None)
  }

  /** The seeded balance is what the assessment of the new student comes to. */
  lemma FinanceSeedMatchesAssessment(courses: seq<Course>, form: NewStudentForm, password: string,
                                     id: string, txId: string, today: int)
    ensures var s := FinanceSeed(courses, form, password, id, txId, today);
      CalculateAssessment(courses, s).total == s.balance
  {
    SeededUnitsAreEnrolledUnits(FindCourse(courses, form.courseId));
  }

  /**
   * Once stored, the new student is balanced; `createStudent` refolds the single
   * tuition entry, which keeps the seeded amount exactly when it is not negative.
   */
  lemma FinanceSeedStored(courses: seq<Course>, form: NewStudentForm, password: string,
                          id: string, txId: string, today: int)
    ensures var s := FinanceSeed(courses, form, password, id, txId, today);
      MockDb.Balanced(MockDb.CreatedRecord(s)) &&
      (MockDb.CreatedRecord(s).balance == s.balance <==> SeedAmount(FindCourse(courses, form.courseId)) >= 0)
  {
    var s := FinanceSeed(courses, form, password, id, txId, today);
    Seqs.SumOfSingleton(s.transactions[0], MockDb.Effect);
  }

  // ---------------------------------------------------------------------------
  // Posting a transaction

  datatype TxForm = TxForm(amount: int, description: Option<string>, txType: TxType)

  /**
   * `handleSaveTransaction`: the `addTransaction` call it makes (student id and
   * transaction), or None when no student is selected or the amount is 0.
   */
  function HandleSaveTransaction(selected: Option<Student>, form: TxForm, txId: string, today: int)
    : (r: Option<(string, Transaction)>)
    ensures r.None? <==> selected.None? || form.amount == 0
    ensures r.Some? ==> r.value.0 == selected.value.id
    ensures r.Some? ==> var t := r.value.1;
      t.id == txId && t.date == today && t.amount == form.amount && t.txType == form.txType &&
      t.description == form.description.GetOr("") && t.recordedBy == "finance_staff" &&
      t.status == Some(TxStatus.Posted)
  {
    if selected.None? || form.amount == 0 then None
    else Some((selected.value.id,
               Transaction(txId, today, form.amount, form.txType, form.description.GetOr(""), "finance_staff",
                           Some(TxStatus.Posted))))
  }

  /** A saved transaction is stored as is and moves the balance by its own contribution. */
  lemma SavedTransactionPosts(s: Student, form: TxForm, txId: string, today: int)
    requires HandleSaveTransaction(Some(s), form, txId, today).Some?
    ensures var t := HandleSaveTransaction(Some(s), form, txId, today).value.1;
      MockDb.Posted(t) == t &&
      MockDb.AddTransactionOn(s, t).balance == MockDb.CalculateBalance(s.transactions) + MockDb.Effect(t) &&
      MockDb.AddTransactionOn(s, t).transactions[0] == t
  {
    var t := HandleSaveTransaction(Some(s), form, txId, today).value.1;
    MockDb.AddTransactionBalance(s, t);
  }

  /** The void button: shown for every row that is not voided. */
  predicate VoidButtonShown(t: Transaction) {
    t.status != Some(Voided)
  }

  /** `handleVoidTransaction`: the `requestTransactionVoid` call made, only when confirmed. */
  function HandleVoidTransaction(selected: Option<Student>, txId: string, confirmed: bool)
    : (r: Option<(string, string)>)
    ensures r.Some? <==> selected.Some? && confirmed
    ensures r.Some? ==> r.value == (selected.value.id, txId)
  {
    if selected.Some? && confirmed then Some((selected.value.id, txId)) else None
  }

  // ---------------------------------------------------------------------------
  // Course choice and labels

  /** A course is offered when its type is the chosen one and, if a department filter is set, it is that department. */
  predicate CourseOffered(c: Course, studentType: StudentType, filterDept: string) {
    c.courseType == studentType && (filterDept == "" || c.department == filterDept)
  }

  function AvailableCourses(courses: seq<Course>, studentType: StudentType, filterDept: string): (r: seq<Course>)
    ensures forall i :: 0 <= i < |r| ==> r[i] in courses && r[i].courseType == studentType
    ensures filterDept != "" ==> forall i :: 0 <= i < |r| ==> r[i].department == filterDept
    ensures forall i :: 0 <= i < |courses| && CourseOffered(courses[i], studentType, filterDept) ==> courses[i] in r
    ensures forall x ::
      multiset(r)[x] == if CourseOffered(x, studentType, filterDept) then multiset(courses)[x] else 0
    ensures Seqs.Subsequence(r, courses)
  {
    var offered := (c: Course) => CourseOffered(c, studentType, filterDept);
    Seqs.FilterMultiplicity(courses, offered);
    Seqs.FilterIsSubsequence(courses, offered);
    Seqs.Filter(courses, offered)
  }

  /** The billing label of a row: 'Paid' iff nothing is owed. */
  function PaidLabel(s: Student): (r: string)
    ensures r == "Paid" <==> s.balance <= 0
    ensures r == "Paid" || r == "Unpaid"
  {
    if s.balance <= 0 then "Paid" else "Unpaid"
  }
}
