/**
 * The super admin's request queue (pages/superadmin/SystemRequests.tsx): the
 * void requests collected from every student, the confirmed approve and reset
 * actions, and the forward-only void lifecycle that the pages, not the store,
 * guarantee.
 */
module SystemRequests {
  import opened Wrappers
  import opened Types
  import Seqs
  import MockDb
  import StudentAccounts

  datatype VoidRequest = VoidRequest(student: Student, transaction: Transaction)

  predicate IsVoidRequested(t: Transaction) {
    t.status == Some(VoidRequested)
  }

  function VoidRequestedCount(s: Student): int {
    Seqs.Count(s.transactions, IsVoidRequested)
  }

  function PairWith(s: Student): Transaction -> VoidRequest {
    (t: Transaction) => VoidRequest(s, t)
  }

  /** The entries of a run of queue rows. */
  function Entries(r: seq<VoidRequest>): seq<Transaction> {
    Seqs.Map(r, (q: VoidRequest) => q.transaction)
  }

  /** Pairing entries with a student and taking the entries back gives the entries. */
  lemma EntriesOfPaired(ts: seq<Transaction>, s: Student)
    ensures Entries(Seqs.Map(ts, PairWith(s))) == ts
  {
  }

  /** One student's part of the queue: its void_requested entries in order. */
  function RequestsOf(s: Student): (r: seq<VoidRequest>)
    ensures |r| == VoidRequestedCount(s)
    ensures forall k :: 0 <= k < |r| ==>
      r[k].student == s && IsVoidRequested(r[k].transaction) && r[k].transaction in s.transactions
    ensures forall j :: 0 <= j < |s.transactions| && IsVoidRequested(s.transactions[j]) ==>
      VoidRequest(s, s.transactions[j]) in r
  {
    var kept := Seqs.Filter(s.transactions, IsVoidRequested);
    var r := Seqs.Map(kept, PairWith(s));
    assert forall j :: 0 <= j < |s.transactions| && IsVoidRequested(s.transactions[j]) ==>
      VoidRequest(s, s.transactions[j]) in r by {
      forall j | 0 <= j < |s.transactions| && IsVoidRequested(s.transactions[j])
        ensures VoidRequest(s, s.transactions[j]) in r
      {
        var k :| 0 <= k < |kept| && kept[k] == s.transactions[j];
        assert r[k] == VoidRequest(s, s.transactions[j]);
      }
    }
    r
  }

  /**
   * One student's rows keep the ledger's order and multiplicity: their entries are
   * a subsequence of the ledger holding every copy of each void_requested entry.
   */
  lemma RequestsOfInOrder(s: Student)
    ensures Seqs.Subsequence(Entries(RequestsOf(s)), s.transactions)
    ensures forall t ::
      multiset(Entries(RequestsOf(s)))[t] == if IsVoidRequested(t) then multiset(s.transactions)[t] else 0
  {
    var kept := Seqs.Filter(s.transactions, IsVoidRequested);
    EntriesOfPaired(kept, s);
    Seqs.FilterIsSubsequence(s.transactions, IsVoidRequested);
    Seqs.FilterMultiplicity(s.transactions, IsVoidRequested);
  }

  /** `voidRequests`: every void_requested entry paired with its student, student by student. */
  function VoidRequests(ss: seq<Student>): (r: seq<VoidRequest>)
    ensures |r| == Seqs.SumOf(ss, VoidRequestedCount)
    ensures forall k :: 0 <= k < |r| ==>
      r[k].student in ss && IsVoidRequested(r[k].transaction) && r[k].transaction in r[k].student.transactions
  {
    if |ss| == 0 then [] else RequestsOf(ss[0]) + VoidRequests(ss[1..])
  }

  /** A single student's queue is that student's rows, in ledger order. */
  lemma VoidRequestsSingle(s: Student)
    ensures VoidRequests([s]) == RequestsOf(s)
  {
    assert [s][1..] == [];
  }

  /** Every void_requested entry of every student is in the queue. */
  lemma {:induction false} VoidRequestsComplete(ss: seq<Student>, i: nat, j: nat)
    requires i < |ss| && j < |ss[i].transactions| && IsVoidRequested(ss[i].transactions[j])
    ensures VoidRequest(ss[i], ss[i].transactions[j]) in VoidRequests(ss)
  {
    if i > 0 {
      assert ss[i] == ss[1..][i - 1];
      VoidRequestsComplete(ss[1..], i - 1, j);
    }
  }

  /** The queue lists the students in order: the queue of a concatenation is the concatenation of the queues. */
  lemma {:induction false} VoidRequestsConcat(a: seq<Student>, b: seq<Student>)
    ensures VoidRequests(a + b) == VoidRequests(a) + VoidRequests(b)
  {
    if |a| == 0 {
      assert a + b == b;
    } else {
      assert (a + b)[1..] == a[1..] + b;
      VoidRequestsConcat(a[1..], b);
    }
  }

  predicate UniqueStudentIds(ss: seq<Student>) {
    forall i, j :: 0 <= i < j < |ss| ==> ss[i].id != ss[j].id
  }

  predicate UniqueTxIds(s: Student) {
    forall i, j :: 0 <= i < j < |s.transactions| ==> s.transactions[i].id != s.transactions[j].id
  }

  predicate AllUniqueTxIds(ss: seq<Student>) {
    forall i :: 0 <= i < |ss| ==> UniqueTxIds(ss[i])
  }

  /** After the store approves a pair it is no longer in the queue (student and entry ids unique). */
  lemma ApprovedPairLeavesQueue(ss: seq<Student>, sid: string, tid: string)
    requires UniqueStudentIds(ss) && AllUniqueTxIds(ss)
    ensures forall q :: q in VoidRequests(MockDb.ApproveVoidIn(ss, sid, tid)) ==>
      !(q.student.id == sid && q.transaction.id == tid)
  {
  }

  /** `handleApproveVoid`: the `approveVoidTransaction` call, made only when confirmed. */
  function HandleApproveVoid(studentId: string, txId: string, confirmed: bool): (r: Option<(string, string)>)
    ensures r.Some? <==> confirmed
    ensures r.Some? ==> r.value == (studentId, txId)
  {
    if confirmed then Some((studentId, txId)) else None
  }

  /** `handleResolvePassword`: the `resolvePasswordRequest` call with the generated password, made only when confirmed. */
  function HandleResolvePassword(req: PasswordRequest, newPass: string, confirmed: bool): (r: Option<(string, string)>)
    ensures r.Some? <==> confirmed
    ensures r.Some? ==> r.value == (req.id, newPass)
  {
    if confirmed then Some((req.id, newPass)) else None
  }

  // ---------------------------------------------------------------------------
  // The void lifecycle under the pages' guards

  /** The lifecycle position of a status: posted (or none) 0, void_requested 1, voided 2. */
  function Rank(st: Option<TxStatus>): (r: int)
    ensures 0 <= r <= 2
    ensures r == 2 <==> st == Some(Voided)
    ensures r == 1 <==> st == Some(VoidRequested)
  {
    match st
    case Some(Voided) => 2
    case Some(VoidRequested) => 1
    case _ => 0
  }

  /** What a finance or super admin user can click. */
  datatype UiAction = RequestVoid(studentId: string, txId: string) | ApproveVoid(studentId: string, txId: string)

  /**
   * Whether the pages offer the action: a void request only through a row of the
   * selected student (`students.find` by id) whose void button is shown, an approval
   * only for a pair in the queue.
   */
  predicate Offered(ss: seq<Student>, a: UiAction) {
    match a
    case RequestVoid(sid, tid) =>
      MockDb.StudentIndex(ss, sid).Some? &&
      var s := ss[MockDb.StudentIndex(ss, sid).value];
      exists j :: 0 <= j < |s.transactions| && s.transactions[j].id == tid &&
                  StudentAccounts.VoidButtonShown(s.transactions[j])
    case ApproveVoid(sid, tid) =>
      exists q :: q in VoidRequests(ss) && q.student.id == sid && q.transaction.id == tid
  }

  /** The store call the action makes. */
  function Perform(ss: seq<Student>, a: UiAction): seq<Student> {
    match a
    case RequestVoid(sid, tid) => MockDb.RequestVoidIn(ss, sid, tid)
    case ApproveVoid(sid, tid) => MockDb.ApproveVoidIn(ss, sid, tid)
  }

  /** No entry's status moved back; the shape of every ledger is kept. */
  predicate NoStepBack(a: seq<Student>, b: seq<Student>) {
    |a| == |b| && forall i :: 0 <= i < |a| ==> LedgerNoStepBack(a[i], b[i])
  }

  /** The same for one student's ledger. */
  predicate LedgerNoStepBack(a: Student, b: Student) {
    |a.transactions| == |b.transactions| &&
    forall j :: 0 <= j < |a.transactions| ==>
      a.transactions[j].id == b.transactions[j].id &&
      Rank(a.transactions[j].status) <= Rank(b.transactions[j].status)
  }

  lemma NoStepBackTransitive(a: seq<Student>, b: seq<Student>, c: seq<Student>)
    requires NoStepBack(a, b) && NoStepBack(b, c)
    ensures NoStepBack(a, c)
  {
  }

  /** Ledgers whose ids line up keep unique ids. */
  lemma SameIdsKeepUnique(a: seq<Student>, b: seq<Student>)
    requires AllUniqueTxIds(a) && NoStepBack(a, b)
    ensures AllUniqueTxIds(b)
  {
  }

  /** With unique ids the store's lookup finds the very row that was clicked. */
  lemma UniqueIdFound(s: Student, j: nat)
    requires UniqueTxIds(s) && j < |s.transactions|
    ensures MockDb.TxIndex(s.transactions, s.transactions[j].id) == Some(j)
  {
    var k := MockDb.TxIndex(s.transactions, s.transactions[j].id);
    assert s.transactions[k.value].id == s.transactions[j].id;
  }

  /** An approval only ever sets voided, the last stage, so it never moves an entry back. */
  lemma ApproveNeverStepsBack(ss: seq<Student>, sid: string, tid: string)
    ensures NoStepBack(ss, MockDb.ApproveVoidIn(ss, sid, tid))
  {
  }

  /** A request made through a shown void button, with unique ids, only moves posted to void_requested. */
  lemma GuardedRequestStepsForward(ss: seq<Student>, sid: string, tid: string)
    requires AllUniqueTxIds(ss) && Offered(ss, RequestVoid(sid, tid))
    ensures NoStepBack(ss, MockDb.RequestVoidIn(ss, sid, tid))
  {
    var i := MockDb.StudentIndex(ss, sid).value;
    var s := ss[i];
    var j :| 0 <= j < |s.transactions| && s.transactions[j].id == tid &&
             StudentAccounts.VoidButtonShown(s.transactions[j]);
    assert UniqueTxIds(s);
    RequestOnStepsForward(s, j);
    var r := MockDb.RequestVoidIn(ss, sid, tid);
    assert r == ss[i := MockDb.RequestVoidOn(s, tid)];
  }

  /** The store's request on the row whose void button was clicked moves it from posted to void_requested. */
  lemma RequestOnStepsForward(s: Student, j: nat)
    requires UniqueTxIds(s) && j < |s.transactions|
    requires StudentAccounts.VoidButtonShown(s.transactions[j])
    ensures LedgerNoStepBack(s, MockDb.RequestVoidOn(s, s.transactions[j].id))
  {
    UniqueIdFound(s, j);
  }

  /** One offered action never moves an entry back along posted, void_requested, voided. */
  lemma OfferedStepForward(ss: seq<Student>, a: UiAction)
    requires AllUniqueTxIds(ss) && Offered(ss, a)
    ensures NoStepBack(ss, Perform(ss, a))
  {
    match a
    case ApproveVoid(sid, tid) => ApproveNeverStepsBack(ss, sid, tid);
    case RequestVoid(sid, tid) => GuardedRequestStepsForward(ss, sid, tid);
  }

  function Run(ss: seq<Student>, actions: seq<UiAction>): seq<Student>
    decreases |actions|
  {
    if |actions| == 0 then ss else Run(Perform(ss, actions[0]), actions[1..])
  }

  /** Every action of the sequence is offered in the state it is taken in. */
  predicate AllOffered(ss: seq<Student>, actions: seq<UiAction>)
    decreases |actions|
  {
    |actions| == 0 || (Offered(ss, actions[0]) && AllOffered(Perform(ss, actions[0]), actions[1..]))
  }

  /** Any sequence of offered actions keeps every entry on the forward-only lifecycle. */
  lemma {:induction false} OfferedRunForward(ss: seq<Student>, actions: seq<UiAction>)
    requires AllUniqueTxIds(ss) && AllOffered(ss, actions)
    ensures NoStepBack(ss, Run(ss, actions))
    decreases |actions|
  {
    if |actions| > 0 {
      var next := Perform(ss, actions[0]);
      OfferedStepForward(ss, actions[0]);
      SameIdsKeepUnique(ss, next);
      OfferedRunForward(next, actions[1..]);
      NoStepBackTransitive(ss, next, Run(next, actions[1..]));
    }
  }

  /** Without the row guard the store does move an entry back: a voided entry can be requested again. */
  lemma UnguardedRequestStepsBack(ss: seq<Student>, sid: string, tid: string)
    requires MockDb.StudentIndex(ss, sid).Some?
    requires var s := ss[MockDb.StudentIndex(ss, sid).value];
      MockDb.TxIndex(s.transactions, tid).Some? && s.transactions[MockDb.TxIndex(s.transactions, tid).value].status == Some(Voided)
    ensures !NoStepBack(ss, MockDb.RequestVoidIn(ss, sid, tid))
  {
    var i := MockDb.StudentIndex(ss, sid).value;
    var k := MockDb.TxIndex(ss[i].transactions, tid).value;
    assert MockDb.RequestVoidIn(ss, sid, tid)[i].transactions[k].status == Some(VoidRequested);
  }
}
