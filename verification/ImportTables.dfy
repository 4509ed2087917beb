/** The tables behind a bulk booking import, one function per SQL statement or
    transaction, and what each of them keeps. Times are whole seconds. */
module ImportTables {
  import opened Common

  datatype JobStatus = JobPending | JobProcessing | JobCompleted | JobFailed
  datatype RowStatus = RowPending | RowSuccess | RowFailed

  datatype Job = Job(
    event: Uuid, occurrence: int, status: JobStatus, error: Option<string>,
    total: int, processed: int, success: int, failed: int,
    updatedAt: int, completedAt: Option<int>)

  /** A row's primary key is its position in the table. */
  datatype Row = Row(
    job: Uuid, number: nat, guest: string, quantity: nat,
    status: RowStatus, error: Option<string>, booking: Option<nat>)

  datatype Tables = Tables(jobs: map<Uuid, Job>, rows: seq<Row>)

  /** One line of the sheet as the parser hands it over; a non-empty `err` means unusable. */
  datatype ParsedRow = ParsedRow(number: nat, guest: string, quantity: nat, err: string)

  /** What processRow reports for a row. */
  datatype RowResult = Booked(booking: nat) | NotBooked(message: string)

  /** Seconds without an update after which the sweep takes a job. */
  const STALE_JOB_AGE := 300

  // ---------------------------------------------------------------- counting

  function StatusColumn(rows: seq<Row>, job: Uuid, st: RowStatus): seq<int> {
    seq(|rows|, i requires 0 <= i < |rows| => if rows[i].job == job && rows[i].status == st then 1 else 0)
  }

  function JobColumn(rows: seq<Row>, job: Uuid): seq<int> {
    seq(|rows|, i requires 0 <= i < |rows| => if rows[i].job == job then 1 else 0)
  }

  /** SELECT COUNT(*) ... WHERE job_id = job AND status = st. */
  function CountStatus(rows: seq<Row>, job: Uuid, st: RowStatus): int {
    Sum(StatusColumn(rows, job, st))
  }

  function CountJob(rows: seq<Row>, job: Uuid): int {
    Sum(JobColumn(rows, job))
  }

  /** Every row of a job is pending, booked or failed. */
  lemma CountsPartition(rows: seq<Row>, job: Uuid)
    ensures CountJob(rows, job)
         == CountStatus(rows, job, RowPending) + CountStatus(rows, job, RowSuccess) + CountStatus(rows, job, RowFailed)
  {
    var p, s := StatusColumn(rows, job, RowPending), StatusColumn(rows, job, RowSuccess);
    var f := StatusColumn(rows, job, RowFailed);
    var ps := seq(|rows|, i requires 0 <= i < |rows| => p[i] + s[i]);
    SumAdd(p, s, ps);
    SumAdd(ps, f, JobColumn(rows, job));
  }

  lemma CountNonNegative(rows: seq<Row>, job: Uuid, st: RowStatus)
    ensures 0 <= CountStatus(rows, job, st)
    ensures CountStatus(rows, job, st) == 0
        ==> forall i :: 0 <= i < |rows| ==> !(rows[i].job == job && rows[i].status == st)
  {
    var c := StatusColumn(rows, job, st);
    SumNonNegative(c);
    assert forall i :: 0 <= i < |rows| ==> c[i] <= CountStatus(rows, job, st);
    assert forall i :: 0 <= i < |rows| && rows[i].job == job && rows[i].status == st ==> c[i] == 1;
  }

  lemma CountAppend(rows: seq<Row>, row: Row, job: Uuid, st: RowStatus)
    ensures CountStatus(rows + [row], job, st)
         == CountStatus(rows, job, st) + (if row.job == job && row.status == st then 1 else 0)
    ensures CountJob(rows + [row], job) == CountJob(rows, job) + (if row.job == job then 1 else 0)
  {
    var one := if row.job == job && row.status == st then 1 else 0;
    assert StatusColumn(rows + [row], job, st) == StatusColumn(rows, job, st) + [one];
    SumAppend(StatusColumn(rows, job, st), one);
    var any := if row.job == job then 1 else 0;
    assert JobColumn(rows + [row], job) == JobColumn(rows, job) + [any];
    SumAppend(JobColumn(rows, job), any);
  }

  lemma CountConcat(rows: seq<Row>, more: seq<Row>, job: Uuid, st: RowStatus)
    ensures CountStatus(rows + more, job, st) == CountStatus(rows, job, st) + CountStatus(more, job, st)
    ensures CountJob(rows + more, job) == CountJob(rows, job) + CountJob(more, job)
  {
    assert StatusColumn(rows + more, job, st) == StatusColumn(rows, job, st) + StatusColumn(more, job, st);
    SumConcat(StatusColumn(rows, job, st), StatusColumn(more, job, st));
    assert JobColumn(rows + more, job) == JobColumn(rows, job) + JobColumn(more, job);
    SumConcat(JobColumn(rows, job), JobColumn(more, job));
  }

  lemma CountUpdate(rows: seq<Row>, id: nat, row: Row, job: Uuid, st: RowStatus)
    requires id < |rows| && row.job == rows[id].job
    ensures CountStatus(rows[id := row], job, st) == CountStatus(rows, job, st)
         - (if rows[id].job == job && rows[id].status == st then 1 else 0)
         + (if row.job == job && row.status == st then 1 else 0)
    ensures CountJob(rows[id := row], job) == CountJob(rows, job)
  {
    var one := if row.job == job && row.status == st then 1 else 0;
    assert StatusColumn(rows[id := row], job, st) == StatusColumn(rows, job, st)[id := one];
    SumUpdate(StatusColumn(rows, job, st), id, one);
    assert JobColumn(rows[id := row], job) == JobColumn(rows, job);
  }

  // ---------------------------------------------------------------- statements

  /** StartImport's conversion: an unusable line is stored as already failed. */
  function ToRow(job: Uuid, p: ParsedRow): Row {
    if p.err == "" then Row(job, p.number, p.guest, p.quantity, RowPending, None, None)
    else Row(job, p.number, p.guest, p.quantity, RowFailed, Some(p.err), None)
  }

  function ToRows(job: Uuid, parsed: seq<ParsedRow>): seq<Row> {
    seq(|parsed|, i requires 0 <= i < |parsed| => ToRow(job, parsed[i]))
  }

  function CreateJob(t: Tables, id: Uuid, event: Uuid, occurrence: int, parsed: seq<ParsedRow>, now: int): Tables {
    var rows := ToRows(id, parsed);
    var preFailed := CountStatus(rows, id, RowFailed);
    Tables(t.jobs[id := Job(event, occurrence, JobPending, None, |parsed|, preFailed, 0, preFailed, now, None)],
           t.rows + rows)
  }

  /** Job counters after one row was resolved. */
  function Bump(j: Job, r: RowResult, now: int): Job {
    j.(processed := j.processed + 1,
       success := j.success + (if r.Booked? then 1 else 0),
       failed := j.failed + (if r.Booked? then 0 else 1),
       updatedAt := now)
  }

  function Resolve(row: Row, r: RowResult): Row {
    match r
    case Booked(b) => row.(status := RowSuccess, error := None, booking := Some(b))
    case NotBooked(m) => row.(status := RowFailed, error := Some(m), booking := None)
  }

  /** The guarded row update and the counter bump, one transaction. */
  function MarkRow(t: Tables, id: nat, r: RowResult, now: int): Tables {
    if id >= |t.rows| || t.rows[id].status != RowPending then t
    else
      var rows := t.rows[id := Resolve(t.rows[id], r)];
      var job := t.rows[id].job;
      Tables(if job in t.jobs then t.jobs[job := Bump(t.jobs[job], r, now)] else t.jobs, rows)
  }

  /** The unguarded status write. */
  function SetStatus(t: Tables, job: Uuid, st: JobStatus, error: Option<string>, now: int): Tables {
    if job !in t.jobs then t
    else
      var j := t.jobs[job];
      var done := if st == JobCompleted || st == JobFailed then Some(now) else j.completedAt;
      t.(jobs := t.jobs[job := j.(status := st, error := error, completedAt := done, updatedAt := now)])
  }

  predicate Stale(j: Job, now: int) {
    (j.status == JobPending || j.status == JobProcessing) && j.updatedAt < now - STALE_JOB_AGE
  }

  function Sweep(t: Tables, now: int): Tables {
    t.(jobs := map id | id in t.jobs ::
      if Stale(t.jobs[id], now) then t.jobs[id].(status := JobPending, updatedAt := now) else t.jobs[id])
  }

  /** Pending rows of a job among the first `n`, in sheet order. */
  function PendingBelow(rows: seq<Row>, job: Uuid, n: nat): seq<nat>
    requires n <= |rows|
  {
    if n == 0 then []
    else
      PendingBelow(rows, job, n - 1)
      + (if rows[n - 1].job == job && rows[n - 1].status == RowPending then [n - 1] else [])
  }

  function PendingOf(rows: seq<Row>, job: Uuid): seq<nat> {
    PendingBelow(rows, job, |rows|)
  }

  // ---------------------------------------------------------------- consistency

  ghost predicate CountersAgree(t: Tables, id: Uuid)
    requires id in t.jobs
  {
    var j := t.jobs[id];
    && j.total == CountJob(t.rows, id)
    && j.success == CountStatus(t.rows, id, RowSuccess)
    && j.failed == CountStatus(t.rows, id, RowFailed)
    && j.processed == j.success + j.failed
  }

  /** A job's rows sit in the table in increasing sheet order. */
  ghost predicate SheetOrder(rows: seq<Row>) {
    forall i, k :: 0 <= i < k < |rows| && rows[i].job == rows[k].job ==> rows[i].number < rows[k].number
  }

  ghost predicate RowsOwned(t: Tables) {
    forall i :: 0 <= i < |t.rows| ==> t.rows[i].job in t.jobs
  }

  ghost predicate AllCountersAgree(t: Tables) {
    forall id {:trigger CountersAgree(t, id)} | id in t.jobs :: CountersAgree(t, id)
  }

  /** Exactly the successful rows carry a booking. */
  ghost predicate BookingsLinked(t: Tables) {
    forall i :: 0 <= i < |t.rows| ==> (t.rows[i].status == RowSuccess <==> t.rows[i].booking.Some?)
  }

  /** Everything about the tables except the counters. */
  ghost predicate WellFormed(t: Tables) {
    RowsOwned(t) && SheetOrder(t.rows) && BookingsLinked(t)
  }

  ghost predicate Consistent(t: Tables) {
    WellFormed(t) && AllCountersAgree(t)
  }

  /** The parser numbers the rows it keeps 1, 2, 3, ... */
  ghost predicate Numbered(parsed: seq<ParsedRow>) {
    forall i, k :: 0 <= i < k < |parsed| ==> parsed[i].number < parsed[k].number
  }

  /** `s` is `t` with resolved rows and all identifying fields untouched. */
  ghost predicate RowsExtend(t: Tables, s: Tables) {
    && |t.rows| <= |s.rows|
    && t.jobs.Keys <= s.jobs.Keys
    && (forall i :: 0 <= i < |t.rows| ==>
          && s.rows[i].job == t.rows[i].job && s.rows[i].number == t.rows[i].number
          && s.rows[i].guest == t.rows[i].guest && s.rows[i].quantity == t.rows[i].quantity)
    && (forall i :: 0 <= i < |t.rows| && t.rows[i].status != RowPending ==> s.rows[i] == t.rows[i])
    && (forall i :: |t.rows| <= i < |s.rows| ==> s.rows[i].job !in t.jobs)
  }

  lemma NoRowsCount(rows: seq<Row>, id: Uuid)
    requires forall i :: 0 <= i < |rows| ==> rows[i].job != id
    ensures CountJob(rows, id) == 0
    ensures forall st :: CountStatus(rows, id, st) == 0
  {
    SumZero(JobColumn(rows, id));
    forall st ensures CountStatus(rows, id, st) == 0 {
      SumZero(StatusColumn(rows, id, st));
    }
  }

  lemma {:induction false} SumOnes(s: seq<int>)
    requires forall i :: 0 <= i < |s| ==> s[i] == 1
    ensures Sum(s) == |s|
  {
    if s != [] { SumOnes(s[..|s| - 1]); }
  }

  lemma CreateJobCounters(t: Tables, id: Uuid, event: Uuid, occurrence: int, parsed: seq<ParsedRow>, now: int)
    requires RowsOwned(t) && AllCountersAgree(t) && id !in t.jobs
    ensures AllCountersAgree(CreateJob(t, id, event, occurrence, parsed, now))
  {
    var s := CreateJob(t, id, event, occurrence, parsed, now);
    var rows := ToRows(id, parsed);
    forall other | other in s.jobs ensures CountersAgree(s, other) {
      CountConcat(t.rows, rows, other, RowSuccess);
      CountConcat(t.rows, rows, other, RowFailed);
      if other == id {
        NoRowsCount(t.rows, id);
        SumOnes(JobColumn(rows, id));
        SumZero(StatusColumn(rows, id, RowSuccess));
      } else {
        NoRowsCount(rows, other);
        assert CountersAgree(t, other);
      }
    }
  }

  lemma SheetOrderConcat(rows: seq<Row>, id: Uuid, parsed: seq<ParsedRow>)
    requires SheetOrder(rows) && Numbered(parsed)
    requires forall i :: 0 <= i < |rows| ==> rows[i].job != id
    ensures SheetOrder(rows + ToRows(id, parsed))
  {
    var all, n := rows + ToRows(id, parsed), |rows|;
    forall i, k | 0 <= i < k < |all| && all[i].job == all[k].job ensures all[i].number < all[k].number {
      assert (i < n <==> k < n);
      if n <= i { assert all[i] == ToRow(id, parsed[i - n]) && all[k] == ToRow(id, parsed[k - n]); }
    }
  }

  lemma CreateJobShape(t: Tables, id: Uuid, event: Uuid, occurrence: int, parsed: seq<ParsedRow>, now: int)
    requires WellFormed(t) && id !in t.jobs && Numbered(parsed)
    ensures WellFormed(CreateJob(t, id, event, occurrence, parsed, now))
    ensures RowsExtend(t, CreateJob(t, id, event, occurrence, parsed, now))
  {
    SheetOrderConcat(t.rows, id, parsed);
  }

  lemma CreateJobKeeps(t: Tables, id: Uuid, event: Uuid, occurrence: int, parsed: seq<ParsedRow>, now: int)
    requires Consistent(t) && id !in t.jobs && Numbered(parsed)
    ensures Consistent(CreateJob(t, id, event, occurrence, parsed, now))
    ensures RowsExtend(t, CreateJob(t, id, event, occurrence, parsed, now))
  {
    CreateJobCounters(t, id, event, occurrence, parsed, now);
    CreateJobShape(t, id, event, occurrence, parsed, now);
  }

  lemma MarkRowCounters(t: Tables, id: nat, r: RowResult, now: int)
    requires RowsOwned(t) && AllCountersAgree(t)
    requires id < |t.rows| && t.rows[id].status == RowPending
    ensures AllCountersAgree(MarkRow(t, id, r, now))
  {
    var s := MarkRow(t, id, r, now);
    var row := Resolve(t.rows[id], r);
    forall j | j in s.jobs ensures CountersAgree(s, j) {
      assert CountersAgree(t, j);
      CountUpdate(t.rows, id, row, j, RowSuccess);
      CountUpdate(t.rows, id, row, j, RowFailed);
    }
  }

  lemma MarkRowShape(t: Tables, id: nat, r: RowResult, now: int)
    requires WellFormed(t)
    ensures WellFormed(MarkRow(t, id, r, now))
    ensures RowsExtend(t, MarkRow(t, id, r, now))
  {
    if id < |t.rows| && t.rows[id].status == RowPending {
      var s := MarkRow(t, id, r, now);
      assert forall i :: 0 <= i < |t.rows| && i != id ==> s.rows[i] == t.rows[i];
    }
  }

  lemma MarkRowKeeps(t: Tables, id: nat, r: RowResult, now: int)
    requires Consistent(t)
    ensures Consistent(MarkRow(t, id, r, now))
    ensures RowsExtend(t, MarkRow(t, id, r, now))
  {
    MarkRowShape(t, id, r, now);
    if id < |t.rows| && t.rows[id].status == RowPending {
      MarkRowCounters(t, id, r, now);
    }
  }

  /** Status writes and sweeps leave rows and counters alone. */
  ghost predicate SameCounters(t: Tables, s: Tables) {
    && s.rows == t.rows && s.jobs.Keys == t.jobs.Keys
    && forall j | j in t.jobs ::
         && s.jobs[j].total == t.jobs[j].total && s.jobs[j].processed == t.jobs[j].processed
         && s.jobs[j].success == t.jobs[j].success && s.jobs[j].failed == t.jobs[j].failed
  }

  /** A statement that leaves rows and counters alone keeps every job's counters right. */
  lemma SameCountersKeeps(t: Tables, s: Tables)
    requires Consistent(t) && SameCounters(t, s)
    ensures Consistent(s) && RowsExtend(t, s)
  {
    forall j | j in s.jobs ensures CountersAgree(s, j) {
      assert CountersAgree(t, j);
    }
  }

  /** The unguarded status write and the sweep keep every job's counters right and every row. */
  lemma QuietWritesKeep(t: Tables, job: Uuid, st: JobStatus, error: Option<string>, now: int)
    requires Consistent(t)
    ensures Consistent(SetStatus(t, job, st, error, now)) && RowsExtend(t, SetStatus(t, job, st, error, now))
    ensures Consistent(Sweep(t, now)) && RowsExtend(t, Sweep(t, now))
  {
    SameCountersKeeps(t, SetStatus(t, job, st, error, now));
    SameCountersKeeps(t, Sweep(t, now));
  }

  // ---------------------------------------------------------------- the pending list

  ghost predicate IsPending(rows: seq<Row>, job: Uuid, id: nat) {
    id < |rows| && rows[id].job == job && rows[id].status == RowPending
  }

  lemma {:induction false} PendingBelowSound(rows: seq<Row>, job: Uuid, n: nat)
    requires n <= |rows|
    ensures forall id: nat :: id in PendingBelow(rows, job, n) <==> id < n && IsPending(rows, job, id)
    ensures forall a, b :: 0 <= a < b < |PendingBelow(rows, job, n)| ==>
      PendingBelow(rows, job, n)[a] < PendingBelow(rows, job, n)[b]
    ensures |PendingBelow(rows, job, n)| == CountStatus(rows[..n], job, RowPending)
  {
    if n == 0 {
      assert rows[..0] == [];
    } else {
      PendingBelowSound(rows, job, n - 1);
      var p := PendingBelow(rows, job, n - 1);
      assert forall a :: 0 <= a < |p| ==> p[a] in p;
      CountAppend(rows[..n - 1], rows[n - 1], job, RowPending);
      assert rows[..n] == rows[..n - 1] + [rows[n - 1]];
    }
  }

  /** ListPendingRows returns each pending row of the job once, by increasing row number. */
  lemma PendingOfSound(rows: seq<Row>, job: Uuid)
    requires SheetOrder(rows)
    ensures forall id: nat :: id in PendingOf(rows, job) <==> IsPending(rows, job, id)
    ensures |PendingOf(rows, job)| == CountStatus(rows, job, RowPending)
    ensures forall a :: 0 <= a < |PendingOf(rows, job)| ==> IsPending(rows, job, PendingOf(rows, job)[a])
    ensures forall a, b :: 0 <= a < b < |PendingOf(rows, job)| ==>
      var p := PendingOf(rows, job);
      p[a] < |rows| && p[b] < |rows| && rows[p[a]].number < rows[p[b]].number
  {
    PendingBelowSound(rows, job, |rows|);
    assert rows[..|rows|] == rows;
    var p := PendingOf(rows, job);
    forall a | 0 <= a < |p| ensures IsPending(rows, job, p[a]) {
      assert p[a] in p;
    }
    forall a, b | 0 <= a < b < |p| ensures p[a] < |rows| && p[b] < |rows| && rows[p[a]].number < rows[p[b]].number {
      assert IsPending(rows, job, p[a]) && IsPending(rows, job, p[b]);
    }
  }
}
