# Crimson school portal: the store and the page rules, in Dafny

This project models the core of a small school administration portal written in
TypeScript and React. Students, staff users, courses and password-reset requests live in
an in-memory store, `MockDatabase`. Role-specific pages read that store and derive what
they show from it:

- finance: student accounts and the ledger with a running balance;
- registrar: student records and subject loads;
- teacher: grade entry;
- student: the student's own dashboard;
- super admin: users, curriculum, the request queue and the transaction log.

The centre of the system is the billing ledger. Each student holds a list of transactions
and a stored `balance`. The store recomputes that balance with one fold whenever a ledger
operation runs. Void requests move an entry along `posted → void_requested → voided`.

The files follow the program's structure:

- `types.dfy`: the records of `types.ts` as datatypes.
- `mockdb.dfy`:
  - the balance fold;
  - the per-student updates the store performs, as pure functions;
  - the `MockDatabase` class. Its fields are the store's arrays, and its methods update
    them in place.
  - `Ledgered()` is its class invariant: every stored balance is the fold of its
    transactions.
- One module per page, holding that page's derivation rules:
  - `studentaccounts.dfy`, `studentrecords.dfy`, `academicconfig.dfy`;
  - `teacherdashboard.dfy`, `usermanagement.dfy`, `systemrequests.dfy`;
  - `transactionlogs.dfy`, `financedashboard.dfy`, `registrardashboard.dfy`;
  - `superadmindashboard.dfy`, `studentdashboard.dfy`;
  - `app.dfy`, `layout.dfy`.
- `coursetotals.dfy` is the per-course grouping that three dashboards share.
- Generic helpers live in `wrappers.dfy` (Option, Result), `seqs.dfy` (find, filter,
  count, sum) and `sorting.dfy` (a stable insertion sort by an integer key, and a string
  sort). `strings.dfy` holds ASCII lower-casing and substring search.

Modelling choices:

- Money, units and fees are integers.
- A transaction date is an integer day number, so ordering by date is integer ordering.
  Other dates stay strings.
- Optional fields are `Option`s.
- A `Partial<...>` update is a patch datatype. Each field is an `Option`, where None means
  the key is absent. For an optional field, `Some(None)` means the key is present with
  value `undefined`, which overwrites.
- Random ids and passwords, the current date and the answer to a confirmation dialog are
  parameters.

The store does not check the void lifecycle itself: a request can be made on a voided
entry, and an approval needs no request. The pages do guard the lifecycle:

- the void button is hidden on voided rows;
- only void-requested rows are offered for approval.

`SystemRequests.OfferedRunForward` proves that any sequence of offered actions never
moves an entry back. This holds when transaction ids are unique within each student.
`SystemRequests.UnguardedRequestStepsBack` shows that the store alone does move an entry
back.

Stored balances are not always the fold. `createStudent` refolds only when it is given
transactions. The registrar's new-student form gives a non-zero balance and no
transactions. `StudentRecords.BscsRegistrarSeedUnbalanced` shows, for the fixture BSCS
course, that such a record breaks the ledger invariant.

## Model

| member | source | states |
|---|---|---|
| Types.UntermedSubjectNotFirstTerm | types.ts:17-23 | a subject without a year level or a semester never passes the year-1, semester-1 seeding filter |
| Types.FeeOrZero | types.ts:32-33 | an absent tuition-per-unit or miscellaneous fee counts as 0, a present one as itself |
| Types.FindCourse | pages/finance/StudentAccounts.tsx:95 | the found course is the first in the list with the asked id; None exactly when no course has that id |
| MockDb.CalculateBalance | services/mockDb.ts:157-164 | the fold from 0 equals the sum of per-entry contributions: 0 when voided, minus the magnitude for a payment, the signed amount for an adjustment, the magnitude otherwise |
| MockDb.Step | services/mockDb.ts:158-163 | one step of the reduce callback adds exactly the entry's contribution |
| MockDb.Effect | services/mockDb.ts:158-163 | a voided entry contributes nothing; a payment never raises the balance; a charge never lowers it; a live adjustment adds its signed amount |
| MockDb.FoldIsSum | services/mockDb.ts:157-164 | folding from any start value adds the sum of the contributions to it |
| MockDb.BalancePrepend | services/mockDb.ts:269-270 | putting an entry in front adds exactly its contribution to the balance |
| MockDb.BalancePermutation | services/mockDb.ts:157-164 | the balance does not depend on the order of the transactions |
| MockDb.Abs | services/mockDb.ts:160-162 | `Math.abs`: non-negative and equal to the value or its negation |
| MockDb.StudentIndex | services/mockDb.ts:204 | `findIndex` by id: the first matching position; None exactly when no student has the id |
| MockDb.TxIndex | services/mockDb.ts:221 | `findIndex` by transaction id: the first matching position; None exactly when absent |
| MockDb.TxIndexSameIds | services/mockDb.ts:221-224 | updates that keep every id keep every lookup by id |
| MockDb.RequestVoidOn | services/mockDb.ts:219-226 | only the first entry with the id becomes void_requested, whatever its status; other entries and fields are unchanged; the balance is refolded; an unknown id changes nothing |
| MockDb.ApproveVoidOn | services/mockDb.ts:369-376 | only the first entry with the id becomes voided, whatever its status; the balance is refolded; an unknown id changes nothing |
| MockDb.Posted | services/mockDb.ts:268 | a missing status defaults to posted; a present status and all other fields are kept |
| MockDb.AddTransactionOn | services/mockDb.ts:264-271 | the defaulted entry goes first, followed by the old list; only transactions and balance change; the record is balanced |
| MockDb.UpdateTransactionOn | services/mockDb.ts:281-290 | the first entry with the same id is replaced and the balance refolded; TransactionNotFound exactly when no entry has the id |
| MockDb.CreatedRecord | services/mockDb.ts:243-251 | the balance is refolded only when transactions were given; otherwise the record is stored as given |
| MockDb.CreatedRecordBalanced | services/mockDb.ts:245-247 | a created record is balanced exactly when it had transactions or its given balance was 0 |
| MockDb.ChangePasswordOn | services/mockDb.ts:207-211 | sets the password and `isPasswordChanged = true`, nothing else |
| MockDb.ResetPasswordOn | services/mockDb.ts:359-362 | sets the new password and `isPasswordChanged = false`, nothing else |
| MockDb.UploadDocumentOn | services/mockDb.ts:298-299 | appends the document and changes nothing else |
| MockDb.MergeStudent | services/mockDb.ts:257 | `{...s, ...updates}`, field by field: a present key sets the field to its value and an absent key keeps the old value; so an empty patch changes nothing, and without balance or transaction keys the ledger is untouched |
| MockDb.RecordsPatchOnlyRecords | services/mockDb.ts:257 | sending only `academicRecords` changes only the academic records |
| MockDb.MergeUser | services/mockDb.ts:318 | `{...u, ...updates}`, field by field: a present key sets the field and an absent key keeps it; an empty patch changes nothing |
| MockDb.MergeCourse | services/mockDb.ts:339 | `{...c, ...updates}`, field by field: a present key sets the field and an absent key keeps it |
| MockDb.CourseAsPatch | pages/superadmin/AcademicConfig.tsx:87 | a whole course sent as updates gives any course it is merged into the edited id, name, type, department and subjects; the adviser and fees follow the edited course when it has them, and are kept otherwise |
| MockDb.RequestVoidIn | services/mockDb.ts:215-232 | the student list after a void request: only the first student with the id is replaced by its requested form; an unknown student leaves the list unchanged |
| MockDb.ApproveVoidIn | services/mockDb.ts:367-379 | the same for an approval |
| MockDb.AddTransactionIn | services/mockDb.ts:262-275 | the same for an added transaction |
| MockDb.ReplaceKeepsBalanced | services/mockDb.ts:227 | replacing one balanced student by another keeps every student balanced |
| MockDb.RequestVoidInKeepsBalanced | services/mockDb.ts:215-232 | a void request keeps every stored balance equal to its fold |
| MockDb.ApproveVoidInKeepsBalanced | services/mockDb.ts:367-379 | an approval keeps every stored balance equal to its fold |
| MockDb.RequestVoidKeepsAmounts | services/mockDb.ts:224 | a void request never changes an entry's amount, type or id |
| MockDb.RequestVoidKeepsBalance | services/mockDb.ts:224-225 | on a balanced student, a void request on an entry that is not voided leaves the balance numerically unchanged |
| MockDb.RequestVoidIdempotent | services/mockDb.ts:215-232 | requesting the same void twice is the same as requesting it once |
| MockDb.ApproveVoidDropsContribution | services/mockDb.ts:373-374 | approving removes exactly the target entry's contribution from the fold |
| MockDb.ApproveWithoutRequest | services/mockDb.ts:373 | a posted entry is voided without any prior request |
| MockDb.RequestAfterVoidGoesBack | services/mockDb.ts:224 | a voided entry is turned back into void_requested |
| MockDb.AddTransactionBalance | services/mockDb.ts:269-270 | adding moves the balance by the defaulted entry's contribution |
| MockDb.StudentSessionOf | services/mockDb.ts:179-197 | the student session has no password, role student, username the first name and name "first last", with all other fields copied |
| MockDb.InitialStudentsBalanced | services/mockDb.ts:82-86 | in the fixtures, 20000 tuition and a -14500 payment fold to the stored 5500, and 15500 to 15500 |
| MockDb.AdjustmentExample | services/mockDb.ts:161 | an adjustment of -2000 on the 5500 fixture lowers the balance to 3500 |
| MockDb.VoidPaymentExample | services/mockDb.ts:367-379 | voiding the fixture's -14500 payment brings the balance back to 20000 |
| MockDb.UpdateUserIn | services/mockDb.ts:314-320 | the first user with the id is merged with the updates; every other position is unchanged; an unknown id changes nothing |
| MockDb.UpdateCourseIn | services/mockDb.ts:335-341 | the first course with the id is merged with the updates; every other position is unchanged; an unknown id changes nothing |
| MockDb.MockDatabase.constructor | services/mockDb.ts:138-149 | students from storage if present, else the fixtures (then ledgered); fixture users and courses; no requests; the initial config |
| MockDb.MockDatabase.Login | services/mockDb.ts:166-200 | a staff username match wins, with no password check; otherwise the first student whose lower-cased first name matches and whose password is equal or not given gets a student session; None exactly when neither matches |
| MockDb.MockDatabase.ChangePassword | services/mockDb.ts:202-213 | StudentNotFound for an unknown id; otherwise only that student's password and flag change; the invariant is kept |
| MockDb.MockDatabase.RequestTransactionVoid | services/mockDb.ts:215-232 | the students become `RequestVoidIn` of the old list; StudentNotFound exactly for an unknown student; returns the updated record; other fields unchanged; the invariant is kept |
| MockDb.MockDatabase.GetStudents | services/mockDb.ts:234-237 | returns the stored students |
| MockDb.MockDatabase.GetCourses | services/mockDb.ts:239-241 | returns the stored courses |
| MockDb.MockDatabase.CreateStudent | services/mockDb.ts:243-251 | appends `CreatedRecord(student)`; the invariant holds afterwards exactly when it held before and the record had transactions or balance 0 |
| MockDb.MockDatabase.UpdateStudent | services/mockDb.ts:253-260 | StudentNotFound for an unknown id; otherwise the first student with the id is merged with the patch; the invariant is kept when the patch touches neither balance nor transactions |
| MockDb.MockDatabase.AddTransaction | services/mockDb.ts:262-275 | the students become `AddTransactionIn` of the old list; StudentNotFound exactly for an unknown student; the invariant is kept |
| MockDb.MockDatabase.UpdateTransaction | services/mockDb.ts:277-291 | StudentNotFound or TransactionNotFound leave the store unchanged; otherwise the entry is replaced and refolded; the invariant is kept |
| MockDb.MockDatabase.UploadDocument | services/mockDb.ts:293-302 | StudentNotFound for an unknown id; otherwise the document is appended to that student only |
| MockDb.MockDatabase.GetUsers | services/mockDb.ts:304-307 | returns the stored users |
| MockDb.MockDatabase.AddUser | services/mockDb.ts:309-312 | appends the user and changes nothing else |
| MockDb.MockDatabase.UpdateUser | services/mockDb.ts:314-320 | the users become `UpdateUserIn` of the old list; nothing else changes |
| MockDb.MockDatabase.GetSystemConfig | services/mockDb.ts:322-324 | returns the stored config |
| MockDb.MockDatabase.UpdateSystemConfig | services/mockDb.ts:326-328 | replaces the config and changes nothing else |
| MockDb.MockDatabase.AddCourse | services/mockDb.ts:330-333 | appends the course and changes nothing else |
| MockDb.MockDatabase.UpdateCourse | services/mockDb.ts:335-341 | the courses become `UpdateCourseIn` of the old list; nothing else changes |
| MockDb.MockDatabase.CreatePasswordRequest | services/mockDb.ts:343-348 | appends a pending request with the given email, user type, id and date |
| MockDb.MockDatabase.GetPasswordRequests | services/mockDb.ts:350-352 | exactly the pending requests, all of them, and only from the stored list |
| MockDb.MockDatabase.ResolvePasswordRequest | services/mockDb.ts:354-365 | the first request with the id is marked resolved, and the first student with its email is reset; an unknown id changes nothing |
| MockDb.MockDatabase.ApproveVoidTransaction | services/mockDb.ts:367-379 | the students become `ApproveVoidIn` of the old list, a silent no-op for unknown ids; the invariant is kept |
| StudentAccounts.FilteredStudents | pages/finance/StudentAccounts.tsx:90-93 | keeps a student if and only if the lower-cased last name contains the lower-cased term or the id contains the term; only stored students; the kept students keep their stored order, with every copy |
| StudentAccounts.EmptySearchKeepsAll | pages/finance/StudentAccounts.tsx:90-93 | an empty search keeps every student, in order |
| StudentAccounts.CalculateAssessment | pages/finance/StudentAccounts.tsx:97-108 | all zeros without a course; otherwise units are the enrolled records' units, tuition is units times the per-unit fee (0 if absent), and total is tuition plus misc |
| Sorting.SortByStable | pages/finance/StudentAccounts.tsx:113-115 | the sort is stable: for every key, the elements with that key leave in the order they came in |
| StudentAccounts.ChronologicalOrder | pages/finance/StudentAccounts.tsx:113-115 | a permutation of the transactions sorted by ascending date |
| StudentAccounts.BalanceAfterStep | pages/finance/StudentAccounts.tsx:117-133 | each row of the walk adds the same contribution as the store's fold |
| StudentAccounts.VoidedRowCarries | pages/finance/StudentAccounts.tsx:118-120 | a voided row carries the previous running balance |
| StudentAccounts.FullWalkIsBalance | pages/finance/StudentAccounts.tsx:110-136 | the walk's final running balance is the store's `calculateBalance` |
| StudentAccounts.TransactionHistoryWithBalance | pages/finance/StudentAccounts.tsx:110-136 | empty without a student; otherwise one row per transaction, newest first, each carrying the running balance after it in date order; the first row's balance is `calculateBalance` |
| StudentAccounts.StepEffect | pages/finance/StudentAccounts.tsx:118-131 | the loop's per-row effect equals the store's contribution |
| StudentAccounts.NewestFirst | pages/finance/StudentAccounts.tsx:135 | reversing the walk gives rows in non-increasing date order |
| StudentAccounts.SeedRecord | pages/finance/StudentAccounts.tsx:143-147 | a seeded record copies the subject and is enrolled, term '1st Sem 2024', instructor 'TBA', with no grade |
| StudentAccounts.SeedRecords | pages/finance/StudentAccounts.tsx:143-147 | exactly the course's year-1, semester-1 subjects, in order, as seeded records |
| StudentAccounts.SeedSubjects | pages/finance/StudentAccounts.tsx:143-147 | empty without a course; otherwise the seeded records |
| StudentAccounts.SeededUnits | pages/finance/StudentAccounts.tsx:149 | the seeded units are the units of the first-term subjects |
| StudentAccounts.SeedAmount | pages/finance/StudentAccounts.tsx:149-152 | 0 without a course; otherwise the tuition per unit (absent as 0) times the units of the course's year-1, semester-1 subjects, plus the miscellaneous fee (absent as 0) |
| StudentAccounts.SeededUnitsAreEnrolledUnits | pages/finance/StudentAccounts.tsx:97-108 | every seeded record is enrolled, so the assessment's unit count equals the seeding's |
| StudentAccounts.FinanceSeed | pages/finance/StudentAccounts.tsx:138-194 | the new student has one posted tuition entry of `units*tuitionPerUnit + miscFee` and that balance; status pending, `isPasswordChanged = false`, year 1 and the seeded records |
| StudentAccounts.FinanceSeedMatchesAssessment | pages/finance/StudentAccounts.tsx:97-152 | the seeded balance equals the assessment total of the new student |
| StudentAccounts.FinanceSeedStored | services/mockDb.ts:245-247 | once stored, the new student is balanced, and the stored balance equals the seeded amount exactly when the amount is not negative |
| StudentAccounts.HandleSaveTransaction | pages/finance/StudentAccounts.tsx:196-214 | no call without a student or with amount 0; otherwise a posted entry with the form's type, amount and description (or '') for the selected student |
| StudentAccounts.SavedTransactionPosts | pages/finance/StudentAccounts.tsx:202-212 | the saved entry is stored as is, first in the list, and moves the balance by its contribution |
| StudentAccounts.HandleVoidTransaction | pages/finance/StudentAccounts.tsx:231-236 | a void request for the selected student exactly when one is selected and the dialog is confirmed |
| StudentAccounts.AvailableCourses | pages/finance/StudentAccounts.tsx:245-248 | exactly the courses of the chosen type, and of the filtered department when one is set, in list order, with every copy |
| StudentAccounts.PaidLabel | pages/finance/StudentAccounts.tsx:39-40 | 'Paid' if and only if the balance is at most 0, else 'Unpaid' |
| StudentRecords.RegistrarSeed | pages/registrar/StudentRecords.tsx:25-61 | the first-term records and balance `units*tuitionPerUnit + miscFee`, no transactions, `isPasswordChanged` unset, status pending, year 1 |
| StudentRecords.RegistrarSeedBalancedIff | pages/registrar/StudentRecords.tsx:52-53 | once stored, the registrar's student is balanced exactly when the seeded amount is 0 |
| StudentRecords.FindBscs | services/mockDb.ts:6-22 | the fixture course list finds the BSCS course |
| StudentRecords.BscsFirstTerm | services/mockDb.ts:14-21 | BSCS's first-term subjects are its first four |
| StudentRecords.BscsFirstTermUnits | services/mockDb.ts:14-17 | those four subjects have 13 units |
| StudentRecords.BscsCourseSeedAmount | services/mockDb.ts:6-22 | the BSCS seed amount is 13 × 1200 + 5000 = 20600 |
| StudentRecords.BscsSeedAmount | pages/registrar/StudentRecords.tsx:28-40 | the registrar form with course BSCS seeds 20600 |
| StudentRecords.BscsRegistrarSeedUnbalanced | pages/registrar/StudentRecords.tsx:52-53 | a BSCS student created by the registrar breaks the ledger invariant |
| StudentRecords.FindSubject | pages/registrar/StudentRecords.tsx:66 | the found subject is the first in the list with that code; None exactly when no subject has it |
| StudentRecords.AddedRecord | pages/registrar/StudentRecords.tsx:69-75 | the new record copies the subject and is enrolled, grade '', term 'Current Term', instructor 'TBA' |
| StudentRecords.HandleAddSubject | pages/registrar/StudentRecords.tsx:63-80 | with a selected student and a code of the student's course, the old records in order plus one added record; otherwise no change |
| StudentRecords.AvailableSubjects | pages/registrar/StudentRecords.tsx:82-86 | exactly the course's subjects whose code is not in the student's records, in curriculum order, with every copy; empty without a student or a course |
| StudentRecords.AddingAvailableSubject | pages/registrar/StudentRecords.tsx:63-86 | adding an available subject grows the records by one and makes the code unavailable |
| StudentRecords.BillingLabel | pages/registrar/StudentRecords.tsx:212-213 | 'Unpaid' with the balance if and only if the balance is positive, else 'Fully Paid' |
| StudentRecords.EnrollmentBadge | pages/registrar/StudentRecords.tsx:130-133 | green if and only if enrolled, yellow if and only if pending, red otherwise |
| App.RoleView | App.tsx:83-108 | finance: accounts if and only if the page is 'accounts'; registrar: records if and only if 'records'; student and teacher: their dashboard whatever the page; super admin: the four named pages, else its dashboard; never Access Denied |
| App.Route | App.tsx:70-115 | Login if and only if there is no user; the password screen if and only if a student's flag is false; else the role's view; never Access Denied |
| App.MustChangePassword | App.tsx:79 | only student sessions are gated, and a student is gated exactly when the flag is `false` |
| App.UnsetFlagNotGated | App.tsx:79-81 | a student whose flag is unset is not gated |
| App.SuperAdminMenuDistinctViews | components/Layout.tsx:38-45 | every super admin menu id routes to a different view |
| App.MenuEntriesLeaveDashboard | components/Layout.tsx:16-45 | for finance, registrar and super admin, every entry after 'dashboard' leads to a view other than the dashboard |
| App.SubmitPassword | App.tsx:25-37 | a mismatch is reported first, then a length below 6; only when both pass is the password changed |
| Layout.MenuIds | components/Layout.tsx:16-49 | no menu without a role; otherwise ids start with 'dashboard' and are distinct; each role's list is exactly the source's: finance dashboard and accounts; registrar dashboard and records; teacher dashboard; student dashboard, grades and billing; super admin dashboard, users, academic, transactions and requests |
| Layout.UserRole | components/Layout.tsx:16 | no role exactly when there is no user; a student session has role student; a staff session has the user's own role |
| Layout.DisplayName | components/Layout.tsx:51-57 | '' without a user; the staff name; "first last" for a student |
| Layout.StudentDisplayNameIsSessionName | components/Layout.tsx:51-57 | for a student the header shows the name login built |
| Layout.HeaderTitle | components/Layout.tsx:141 | 'Student Accounts' for records and accounts; otherwise the page id with its first '-' replaced by a space |
| AcademicConfig.AddDept | pages/superadmin/AcademicConfig.tsx:30-37 | no change exactly when the name is empty or already listed; otherwise the name is appended |
| AcademicConfig.AddDeptKeepsNoDuplicates | pages/superadmin/AcademicConfig.tsx:30-37 | a duplicate-free list stays duplicate-free and grows by at most one |
| AcademicConfig.DeleteDept | pages/superadmin/AcademicConfig.tsx:39-45 | only when confirmed: every occurrence goes, every other department stays with all its copies, in the old order, and nothing is added |
| AcademicConfig.DeleteAbsentDept | pages/superadmin/AcademicConfig.tsx:39-45 | deleting an unlisted department leaves the list as it was |
| AcademicConfig.DeptTeacherStatus | pages/superadmin/AcademicConfig.tsx:47-50 | 'Unassigned' if and only if no teacher is in the department; otherwise the positive count of its teachers |
| AcademicConfig.NewCourseTemplate | pages/superadmin/AcademicConfig.tsx:59-71 | a blank college course in the selected department with fees 0 and no subjects |
| AcademicConfig.SaveCourse | pages/superadmin/AcademicConfig.tsx:78-93 | nothing without an id and a name; an update when the id is known; otherwise an addition |
| AcademicConfig.ApplySave | pages/superadmin/AcademicConfig.tsx:86-90 | no save changes nothing; an add appends the course; an update merges the patch into the first course with the id and leaves every other position as it was; with the same id in the patch every id is kept |
| AcademicConfig.SaveCourseKeepsIdsUnique | pages/superadmin/AcademicConfig.tsx:78-93 | saving through this page keeps course ids unique |
| AcademicConfig.BlankSubject | pages/superadmin/AcademicConfig.tsx:23 | the reset template: empty code and name, 3 units, year 1, semester 1 |
| AcademicConfig.AddSubject | pages/superadmin/AcademicConfig.tsx:95-100 | with a code and a name, appends the subject and resets the template; otherwise no change |
| AcademicConfig.AddSubjectAllowsDuplicateCode | pages/superadmin/AcademicConfig.tsx:95-100 | a code that is already listed can be added a second time |
| AcademicConfig.RemoveSubject | pages/superadmin/AcademicConfig.tsx:102-106 | every subject with the code goes; every other one stays with all its copies, in the old order |
| AcademicConfig.AddThenRemoveSubject | pages/superadmin/AcademicConfig.tsx:95-106 | removing the code of a subject just added under a fresh code gives back the course as it was |
| AcademicConfig.DeptCourses | pages/superadmin/AcademicConfig.tsx:108 | exactly the courses of the selected department, in list order, with every copy; none when no department is selected |
| TeacherDashboard.CourseDepartment | pages/teacher/TeacherDashboard.tsx:16-17 | the department of the student's course; None exactly when the course is missing |
| TeacherDashboard.MyStudents | pages/teacher/TeacherDashboard.tsx:12-18 | exactly the students whose course's department equals the teacher's, in stored order, with every copy (so the shown count is the number of such students) |
| TeacherDashboard.NoDepartmentSeesOrphans | pages/teacher/TeacherDashboard.tsx:12-18 | a teacher without a department sees exactly the students whose course is missing |
| TeacherDashboard.UpdateGrade | pages/teacher/TeacherDashboard.tsx:21-23 | same length and order; records with the code get the grade; all other fields and records are unchanged |
| TeacherDashboard.UpdateGradeUnknownCode | pages/teacher/TeacherDashboard.tsx:21-23 | a code no record has changes nothing |
| TeacherDashboard.UpdateGradeIdempotent | pages/teacher/TeacherDashboard.tsx:21-23 | entering the same grade twice is entering it once |
| TeacherDashboard.GradeEntryOnlyTouchesRecords | pages/teacher/TeacherDashboard.tsx:25 | the store update changes only the academic records |
| TeacherDashboard.RefreshSelected | pages/teacher/TeacherDashboard.tsx:27-29 | the selected copy is refreshed only when its id is the graded student's |
| UserManagement.OpenAdd | pages/superadmin/UserManagement.tsx:38-42 | an empty form with role registrar, not in edit mode |
| UserManagement.OpenEdit | pages/superadmin/UserManagement.tsx:32-36 | the form holds the user's fields, in edit mode |
| UserManagement.FormPatch | pages/superadmin/UserManagement.tsx:18 | the form sent as updates: each present field is a key |
| UserManagement.ApplySubmission | pages/superadmin/UserManagement.tsx:18-27 | an add appends the new user; an update merges the patch into the first user with the id and leaves every other position as it was; with the same id in the patch every id is kept |
| UserManagement.HandleSubmit | pages/superadmin/UserManagement.tsx:15-30 | an update exactly in edit mode with a non-empty id; otherwise an add with id 'u' + stamp, where the department is set only for a teacher |
| UserManagement.EditUntouchedIsNoOp | pages/superadmin/UserManagement.tsx:15-36 | saving an unchanged edit form leaves the user as it was |
| UserManagement.EditKeepsDepartmentAddDropsIt | pages/superadmin/UserManagement.tsx:17-28 | editing keeps a teacher's department; adding the same form as a non-teacher drops it |
| UserManagement.AddFromBlankForm | pages/superadmin/UserManagement.tsx:11-27 | submitting the blank add form creates a registrar with empty names |
| UserManagement.SortedDepartments | pages/superadmin/UserManagement.tsx:45 | a sorted permutation of the configured departments |
| SystemRequests.RequestsOf | pages/superadmin/SystemRequests.tsx:13-15 | one row per void-requested entry of the student, each paired with the student; every such entry is queued |
| SystemRequests.RequestsOfInOrder | pages/superadmin/SystemRequests.tsx:13-15 | the rows' entries keep the ledger's order and every copy of each void-requested entry |
| SystemRequests.VoidRequestsSingle | pages/superadmin/SystemRequests.tsx:12-16 | a single student's queue is exactly that student's rows, which keep the ledger order and copies |
| SystemRequests.VoidRequests | pages/superadmin/SystemRequests.tsx:12-16 | only void-requested pairs, and as many as the sum of the students' void-requested counts |
| SystemRequests.VoidRequestsComplete | pages/superadmin/SystemRequests.tsx:12-16 | every void-requested entry of every student is in the queue |
| SystemRequests.VoidRequestsConcat | pages/superadmin/SystemRequests.tsx:12 | the queue lists students in order: the queue of a concatenation is the concatenation of queues |
| SystemRequests.ApprovedPairLeavesQueue | pages/superadmin/SystemRequests.tsx:36-40 | with unique ids, an approved pair is no longer in the queue |
| SystemRequests.HandleApproveVoid | pages/superadmin/SystemRequests.tsx:36-40 | the approval call is made exactly when confirmed |
| SystemRequests.HandleResolvePassword | pages/superadmin/SystemRequests.tsx:27-34 | the resolve call, with the generated password, is made exactly when confirmed |
| SystemRequests.Rank | types.ts:14 | posted or none 0, void_requested 1, voided 2 |
| SystemRequests.NoStepBackTransitive | pages/superadmin/SystemRequests.tsx:12-16 | "no status moved back" composes |
| SystemRequests.SameIdsKeepUnique | pages/superadmin/SystemRequests.tsx:12-16 | ledgers that keep every id keep ids unique |
| SystemRequests.UniqueIdFound | services/mockDb.ts:221 | with unique ids the store's lookup finds the clicked row |
| SystemRequests.ApproveNeverStepsBack | services/mockDb.ts:367-379 | an approval never moves an entry back |
| SystemRequests.RequestOnStepsForward | pages/finance/StudentAccounts.tsx:551 | a request on a row whose button is shown never moves it back |
| SystemRequests.GuardedRequestStepsForward | pages/finance/StudentAccounts.tsx:551 | a request made through a shown void button, with unique ids, never moves an entry back |
| SystemRequests.OfferedStepForward | pages/superadmin/SystemRequests.tsx:88-99 | one offered action never moves an entry back |
| SystemRequests.OfferedRunForward | pages/superadmin/SystemRequests.tsx:12-16 | any sequence of offered actions keeps every entry on the forward-only lifecycle |
| SystemRequests.UnguardedRequestStepsBack | services/mockDb.ts:224 | without the row guard the store moves a voided entry back to void_requested |
| TransactionLogs.Flatten | pages/superadmin/TransactionLogs.tsx:10-16 | as many rows as the sum of the students' list lengths, each tagged with its student's "last, first", id and course |
| TransactionLogs.FlattenSingle | pages/superadmin/TransactionLogs.tsx:10-16 | one student's part of the log is that student's entries in ledger order, each tagged |
| TransactionLogs.FlattenConcat | pages/superadmin/TransactionLogs.tsx:10-16 | the log lists students in their order: the log of a concatenation is the concatenation of the logs |
| TransactionLogs.SameDateKeepsLogOrder | pages/superadmin/TransactionLogs.tsx:10-17 | rows with the same date (the same value of the negated-date sort key) keep their flattened order after the newest-first sort |
| TransactionLogs.FlattenComplete | pages/superadmin/TransactionLogs.tsx:10-16 | every entry of every student is in the log with its tag |
| TransactionLogs.AllTransactions | pages/superadmin/TransactionLogs.tsx:10-17 | a permutation of the flattened log in non-increasing date order |
| TransactionLogs.NewestFirst | pages/superadmin/TransactionLogs.tsx:17 | ascending by negated date is newest first |
| TransactionLogs.FilteredTx | pages/superadmin/TransactionLogs.tsx:19-23 | keeps a row if and only if the name or description contains the filter ignoring case, or the id contains it; kept rows keep their order and their copies |
| TransactionLogs.EmptyFilterKeepsAll | pages/superadmin/TransactionLogs.tsx:19-23 | an empty filter keeps every row, in order |
| TransactionLogs.FilterKeepsNewestFirst | pages/superadmin/TransactionLogs.tsx:17-23 | the filtered log stays newest first |
| TransactionLogs.StatusBadge | pages/superadmin/TransactionLogs.tsx:65-67 | red if and only if voided; yellow if and only if void_requested; green otherwise, also with no status |
| CourseTotals.CoursePoints | pages/finance/FinanceDashboard.tsx:15-18 | one point per course, in course order, valued at the weight summed over that course's students |
| CourseTotals.CourseTotalCons | pages/finance/FinanceDashboard.tsx:17 | a student adds its weight only to its own course's total |
| CourseTotals.SumOverCoursesIsTotal | pages/finance/FinanceDashboard.tsx:11-19 | when each student's course id names exactly one course, summing over courses counts each student once |
| CourseTotals.CoursePointsSum | pages/finance/FinanceDashboard.tsx:15-19 | the points add up to the per-course sum |
| CourseTotals.CoursePointsPartition | pages/finance/FinanceDashboard.tsx:11-19 | any permutation of the points adds up to the total over students, when each course id names exactly one course |
| FinanceDashboard.TotalReceivables | pages/finance/FinanceDashboard.tsx:11 | the left-to-right `reduce` of the balances: 0 for no students, and each further student adds its balance to the total of those before; with no student in credit it is non-negative, and 0 exactly when every balance is 0 |
| FinanceDashboard.NoDebtNoReceivables | pages/finance/FinanceDashboard.tsx:11 | with no positive balance the receivables are at most 0, and 0 exactly when every balance is 0 |
| FinanceDashboard.PaidCount | pages/finance/FinanceDashboard.tsx:12 | at most the number of students; 0 exactly when everybody owes something |
| FinanceDashboard.UnpaidCount | pages/finance/FinanceDashboard.tsx:13 | paid and unpaid add up to the student count; unpaid counts exactly the students with a positive balance |
| FinanceDashboard.CourseReceivables | pages/finance/FinanceDashboard.tsx:15-18 | one point per course in course order, valued at the sum of its students' balances |
| FinanceDashboard.ReceivablesByCourse | pages/finance/FinanceDashboard.tsx:15-19 | a permutation of the per-course receivables in non-increasing value order |
| FinanceDashboard.ReceivablesByCoursePartition | pages/finance/FinanceDashboard.tsx:11-19 | when each course id names exactly one course, the per-course values add up to the total receivables |
| RegistrarDashboard.CourseEnrollment | pages/registrar/RegistrarDashboard.tsx:11-14 | one point per course in course order, counting its students |
| RegistrarDashboard.EnrollmentByCourse | pages/registrar/RegistrarDashboard.tsx:11-15 | a permutation of the per-course counts in non-increasing order |
| RegistrarDashboard.EnrollmentByCoursePartition | pages/registrar/RegistrarDashboard.tsx:11-23 | when each course id names exactly one course, the bars count every student once |
| RegistrarDashboard.StatusPartition | pages/registrar/RegistrarDashboard.tsx:17-21 | enrolled, pending, dropped and graduated counts add up to the number of students |
| RegistrarDashboard.StatusDataOf | pages/registrar/RegistrarDashboard.tsx:17-23 | the three tallies add up to at most `totalStudents`, and to it exactly when nobody has graduated |
| RegistrarDashboard.PendingDocs | pages/registrar/RegistrarDashboard.tsx:24 | the number of pending documents among all students' documents taken together; 0 exactly when no student has a pending document |
| RegistrarDashboard.PerStudentCountsAddUp | pages/registrar/RegistrarDashboard.tsx:24 | adding up each student's pending count gives the pending count of all documents together |
| RegistrarDashboard.NoPendingDoc | pages/registrar/RegistrarDashboard.tsx:24 | a student's pending count is 0 exactly when none of its documents is pending |
| SuperAdminDashboard.MakeOverview | pages/superadmin/SuperAdminDashboard.tsx:10-26 | the totals are the list lengths and the summed balances; each chart has one bar per course, in course order, counting students and summing balances |
| SuperAdminDashboard.OverviewAgreesWithDashboards | pages/superadmin/SuperAdminDashboard.tsx:16-26 | the charts hold the same bars as the registrar's and finance's, unsorted, and add up to the totals when each course id names exactly one course |
| StudentDashboard.StudentData | pages/student/StudentDashboard.tsx:10-13 | the first student whose id is the session's; None (the loading view) exactly when there is no session or no such student |
| StudentDashboard.LoggedInStudentFound | pages/student/StudentDashboard.tsx:10 | a logged-in student still in the store finds their own record |
| StudentDashboard.CourseLabel | pages/student/StudentDashboard.tsx:11-22 | the course name when found and non-empty, else the course id |
| StudentDashboard.EnrolledSubjects | pages/student/StudentDashboard.tsx:15 | exactly the records with status enrolled, in record order, with every copy |
| StudentDashboard.GradingKeepsEnrolledCount | pages/teacher/TeacherDashboard.tsx:21-23 | grading never changes the number of enrolled subjects |
| StudentDashboard.RecentActivity | pages/student/StudentDashboard.tsx:89 | the first five entries in stored order, or all when fewer |
| StudentDashboard.AddedTransactionShownFirst | services/mockDb.ts:269 | after an addition the new entry heads the recent activity, followed by what was shown before |
| StudentDashboard.ActivityAmount | pages/student/StudentDashboard.tsx:95-97 | '-' if and only if a payment, else '+', then the absolute amount |
| StudentDashboard.ActivityAmountIsEffect | pages/student/StudentDashboard.tsx:95-97 | for a non-voided entry that is not a credit adjustment, the shown amount is its contribution to the balance |
| StudentDashboard.CreditAdjustmentShownAsCharge | pages/student/StudentDashboard.tsx:95-97 | a negative adjustment lowers the balance but is shown with '+' |
| StudentDashboard.GradeDisplay | pages/student/StudentDashboard.tsx:71-72 | 'In Progress' if and only if the grade is falsy, else the grade |
| StudentDashboard.GradedSubjectShown | pages/teacher/TeacherDashboard.tsx:21-23 | a subject graded with a non-empty text shows that grade; clearing it shows 'In Progress' |
| StudentDashboard.InstructorDisplay | pages/student/StudentDashboard.tsx:69 | the instructor when non-empty, else 'TBA' |

## Left out

- Persistence is not modelled: the `localStorage` load and save, and the artificial delay. The constructor takes the stored list as an `Option` parameter.
- The financial summary from an external AI service is not modelled. It is a network call.
- The chart geometry is not modelled. It is floating-point presentation.
- The card and login page rendering, the async context wrappers and the build configuration are not modelled.
- `FileReader` is not modelled: `UploadDocumentOn` takes the finished document record.
- Alerts, the clipboard and the credentials e-mail are side effects and are not modelled.
- Random ids and passwords, `Date.now()` and today's date are parameters.
- A confirmation dialog's answer is a boolean parameter.
- Money is an integer; fractional amounts from `parseFloat` and `toLocaleString` formatting are not modelled.
- A transaction date is an integer day number rather than a `Date` parse of an ISO string.
- `toLowerCase` is ASCII-only.
- Sorting.LexLe: compares strings by Unicode scalar value, whereas `sort()` without a comparator compares UTF-16 code units; the two orders differ only when a character outside the Basic Multilingual Plane meets one in U+E000 to U+FFFF. `Sorting.SortStrings` sorts by this order.
- JavaScript's `sort` with a numeric comparator becomes a stable insertion sort. `Array.prototype.sort` is stable since ECMAScript 2019, so rows with equal keys keep their input order in both; only the algorithm differs.
- Aliasing is not modelled: `requestTransactionVoid`, `updateTransaction` and `approveVoidTransaction` change the stored transaction object in place, `resolvePasswordRequest` changes the stored request and student records in place, and `createStudent` writes `balance` into the caller's own object; a caller holding such an object would see the change. Here each state is a value.
- MockDb.MockDatabase.UpdateStudent: keeps `Ledgered()` only when the patch touches neither balance nor transactions, because the store merges arbitrary fields.
- MockDb.MockDatabase.CreateStudent: re-establishes `Ledgered()` only for records with transactions or balance 0. The store keeps the given balance otherwise.
- MockDb.RequestVoidKeepsBalance: requires the target entry not to be voided already. Requesting a void on a voided entry makes it count again.
- SystemRequests.OfferedRunForward: assumes unique transaction ids within each student. With duplicates, the store's first-match lookup could change a different row from the one clicked.
- App.SubmitPassword: counts a password's length in Unicode scalar values, whereas JavaScript's `length` counts UTF-16 code units; a password of three characters outside the Basic Multilingual Plane (three emoji, say) passes the length check in the source but is rejected here.
- App.Route: the 'Access Denied' branch is unreachable, because every role value has a view, so it is stated as never taken.
- UserManagement.HandleSubmit: assumes the form's username, name and role are present, as the non-null assertions do.
- The registrar's search uses the same rule as the finance page. `StudentAccounts.FilteredStudents` models both.
