/**
 * The system-wide transaction log (pages/superadmin/TransactionLogs.tsx): every
 * student's entries tagged with the student, newest first, and the search filter.
 */
module TransactionLogs {
  import opened Wrappers
  import opened Types
  import Seqs
  import Sorting
  import Strings

  datatype LogRow = LogRow(tx: Transaction, studentName: string, studentId: string, course: string)

  /** The tag a student's entries carry: "last, first", the id and the course. */
  function TagWith(s: Student): Transaction -> LogRow {
    (t: Transaction) => LogRow(t, s.lastName + ", " + s.firstName, s.id, s.courseId)
  }

  function TxCount(s: Student): int {
    |s.transactions|
  }

  /** The row carries an entry of `s` with the student's name, id and course. */
  predicate TaggedBy(row: LogRow, s: Student) {
    row == TagWith(s)(row.tx) && row.tx in s.transactions
  }

  /** `students.flatMap(...)`: each student's tagged entries, student by student. */
  function Flatten(ss: seq<Student>): (r: seq<LogRow>)
    ensures |r| == Seqs.SumOf(ss, TxCount)
    ensures forall k :: 0 <= k < |r| ==> exists i :: 0 <= i < |ss| && TaggedBy(r[k], ss[i])
  {
    if |ss| == 0 then []
    else
      var head := Seqs.Map(ss[0].transactions, TagWith(ss[0]));
      var rest := Flatten(ss[1..]);
      forall k | 0 <= k < |rest| ensures exists i :: 0 <= i < |ss| && TaggedBy(rest[k], ss[i]) {
        var i :| 0 <= i < |ss[1..]| && TaggedBy(rest[k], ss[1..][i]);
        assert ss[1..][i] == ss[i + 1];
      }
      assert forall k :: 0 <= k < |head| ==> TaggedBy(head[k], ss[0]);
      head + rest
  }

  /** Every entry of every student is in the flattened log, with its tag. */
  lemma {:induction false} FlattenComplete(ss: seq<Student>, i: nat, j: nat)
    requires i < |ss| && j < |ss[i].transactions|
    ensures TagWith(ss[i])(ss[i].transactions[j]) in Flatten(ss)
  {
    if i == 0 {
      var head := Seqs.Map(ss[0].transactions, TagWith(ss[0]));
      assert head[j] == TagWith(ss[0])(ss[0].transactions[j]);
    } else {
      assert ss[i] == ss[1..][i - 1];
      FlattenComplete(ss[1..], i - 1, j);
    }
  }

  /** One student's part of the log: the student's entries in ledger order, each tagged. */
  lemma FlattenSingle(s: Student)
    ensures Flatten([s]) == Seqs.Map(s.transactions, TagWith(s))
  {
    assert [s][1..] == [];
  }

  /** The log lists the students in order: the log of a concatenation is the concatenation of the logs. */
  lemma {:induction false} FlattenConcat(a: seq<Student>, b: seq<Student>)
    ensures Flatten(a + b) == Flatten(a) + Flatten(b)
  {
    if |a| == 0 {
      assert a + b == b;
    } else {
      assert (a + b)[1..] == a[1..] + b;
      FlattenConcat(a[1..], b);
    }
  }

  function NegDate(r: LogRow): int {
    -r.tx.date
  }

  /** `allTransactions`: the flattened log sorted newest first (a stable sort on the negated date). */
  function AllTransactions(ss: seq<Student>): (r: seq<LogRow>)
    ensures |r| == Seqs.SumOf(ss, TxCount)
    ensures multiset(r) == multiset(Flatten(ss))
    ensures forall i, j :: 0 <= i < j < |r| ==> r[i].tx.date >= r[j].tx.date
  {
    var r := Sorting.SortBy(Flatten(ss), NegDate);
    NewestFirst(r);
    r
  }

  /**
   * Rows of the same date keep the order they have in the flattened log (the sort is
   * stable): filtering both by one value `k` of the sort key, the negated date, gives
   * the same rows in the same order.
   */
  lemma SameDateKeepsLogOrder(ss: seq<Student>, k: int)
    ensures Seqs.Filter(AllTransactions(ss), Sorting.KeyIs(NegDate, k)) ==
            Seqs.Filter(Flatten(ss), Sorting.KeyIs(NegDate, k))
  {
    Sorting.SortByStable(Flatten(ss), NegDate, k);
  }

  /** Ascending by the negated date is newest first. */
  lemma NewestFirst(r: seq<LogRow>)
    requires Sorting.SortedBy(r, NegDate)
    ensures forall i, j :: 0 <= i < j < |r| ==> r[i].tx.date >= r[j].tx.date
  {
    forall i, j | 0 <= i < j < |r| ensures r[i].tx.date >= r[j].tx.date {
      assert NegDate(r[i]) <= NegDate(r[j]);
    }
  }

  /** Name or description contains the filter ignoring case, or the id contains it exactly. */
  predicate LogMatch(row: LogRow, filter: string) {
    Strings.IncludesIgnoreCase(row.studentName, filter) ||
    Strings.Includes(row.tx.id, filter) ||
    Strings.IncludesIgnoreCase(row.tx.description, filter)
  }

  function Matching(filter: string): LogRow -> bool {
    (row: LogRow) => LogMatch(row, filter)
  }

  /** `filteredTx`. */
  function FilteredTx(rows: seq<LogRow>, filter: string): (r: seq<LogRow>)
    ensures forall i :: 0 <= i < |r| ==> LogMatch(r[i], filter) && r[i] in rows
    ensures forall i :: 0 <= i < |rows| && LogMatch(rows[i], filter) ==> rows[i] in r
    ensures forall x :: multiset(r)[x] == if LogMatch(x, filter) then multiset(rows)[x] else 0
    ensures Seqs.Subsequence(r, rows)
  {
    Seqs.FilterMultiplicity(rows, Matching(filter));
    Seqs.FilterIsSubsequence(rows, Matching(filter));
    Seqs.Filter(rows, Matching(filter))
  }

  /** An empty filter keeps every row. */
  lemma EmptyFilterKeepsAll(rows: seq<LogRow>)
    ensures FilteredTx(rows, "") == rows
  {
    forall i | 0 <= i < |rows| ensures LogMatch(rows[i], "") {
      Strings.EmptyIncluded(rows[i].tx.id);
    }
    Seqs.FilterAll(rows, Matching(""));
  }

  /** Filtering the log keeps it newest first. */
  lemma FilterKeepsNewestFirst(ss: seq<Student>, filter: string)
    ensures var r := FilteredTx(AllTransactions(ss), filter);
      forall i, j :: 0 <= i < j < |r| ==> r[i].tx.date >= r[j].tx.date
  {
    var all := AllTransactions(ss);
    assert Sorting.SortedBy(all, NegDate);
    Sorting.FilterKeepsSorted(all, Matching(filter), NegDate);
    NewestFirst(FilteredTx(all, filter));
  }

  /** The status badge: red for voided, yellow for void_requested, green otherwise (also with no status). */
  function StatusBadge(status: Option<TxStatus>): (r: Badge)
    ensures r == Red <==> status == Some(Voided)
    ensures r == Yellow <==> status == Some(VoidRequested)
    ensures r == Green <==> status.None? || status.value.Posted?
  {
    match status
    case Some(Voided) => Red
    case Some(VoidRequested) => Yellow
    case _ => Green
  }
}
