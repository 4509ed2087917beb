/** Runs showing that the conditions of ImportTruth are needed: one guest, one seat or more. */
module ImportExamples {
  import opened Common
  import opened ImportTables
  import opened WalkInDesk
  import opened ImportProtocol
  import opened ImportTheorems
  import opened ImportTruth

  lemma FourSteps(s: World, a: Step, b: Step, c: Step, d: Step)
    ensures Run(s, [a, b, c, d]) == Apply(Apply(Apply(Apply(s, a), b), c), d)
  {
    assert Run(s, []) == s;
    Snoc(s, [], a); Snoc(s, [a], b); Snoc(s, [a, b], c); Snoc(s, [a, b, c], d);
    assert [] + [a] == [a] && [a] + [b] == [a, b] && [a, b] + [c] == [a, b, c] && [a, b, c] + [d] == [a, b, c, d];
  }

  /** One guest, still pending, on a job for `event` at time 0. */
  ghost predicate OneRow(s: World, event: Uuid, job: Uuid, guest: string) {
    && job in s.t.jobs && s.t.jobs[job].event == event && s.t.jobs[job].occurrence == 0
    && s.t.rows == [Row(job, 1, guest, 1, RowPending, None, None)]
  }

  lemma UploadOneRow(event: Uuid, job: Uuid, guest: string, seats: nat)
    ensures var s := Apply(Empty(map[event := seats]), Upload(job, event, 0, [ParsedRow(1, guest, 1, "")]));
      OneRow(s, event, job, guest) && s.bookings == [] && s.workers == map[] && s.capacity == map[event := seats]
  {
    assert ToRows(job, [ParsedRow(1, guest, 1, "")]) == [Row(job, 1, guest, 1, RowPending, None, None)];
  }

  /** Starting and listing puts the row at the head of the worker's list. */
  lemma StartAndList(s: World, w: nat, event: Uuid, job: Uuid, guest: string)
    requires OneRow(s, event, job, guest) && WorkerAt(s, w).Idle?
    ensures var s' := Apply(Apply(s, Start(w, job)), List(w));
      && OneRow(s', event, job, guest) && s'.bookings == s.bookings && s'.capacity == s.capacity
      && s'.workers == s.workers[w := Walking(job, [0], {})]
  {
    var a := Apply(s, Start(w, job));
    assert PendingBelow(a.t.rows, job, 0) == [];
    assert PendingOf(a.t.rows, job) == [0];
  }

  lemma CheckAndCommit(s: World, w: nat, event: Uuid, job: Uuid, guest: string)
    requires OneRow(s, event, job, guest) && WorkerAt(s, w) == Walking(job, [0], {})
    requires s.bookings == [] && event in s.capacity && 1 <= s.capacity[event]
    ensures var s' := Apply(Apply(s, Check(w, Clear)), Commit(w, Clear));
      && OneRow(s', event, job, guest)
      && s'.bookings == [Booking(RowKey(job, 1), guest, event, 0, 1, true)]
      && s'.workers == s.workers[w := Recording(job, [0], {}, Booked(0))]
  {
    assert SeatColumn([], event, 0) == [];
  }

  /** The guest is booked, and the first worker knows it. */
  function BookedRun(event: Uuid, job: Uuid, guest: string, seats: nat): World {
    Run(Apply(Empty(map[event := seats]), Upload(job, event, 0, [ParsedRow(1, guest, 1, "")])),
      [Start(0, job), List(0), Check(0, Clear), Commit(0, Clear)])
  }

  lemma BookedRunState(event: Uuid, job: Uuid, guest: string, seats: nat)
    requires 1 <= seats
    ensures var s := BookedRun(event, job, guest, seats);
      && OneRow(s, event, job, guest)
      && s.bookings == [Booking(RowKey(job, 1), guest, event, 0, 1, true)]
      && s.workers == map[0 := Recording(job, [0], {}, Booked(0))]
  {
    UploadOneRow(event, job, guest, seats);
    var s := Apply(Empty(map[event := seats]), Upload(job, event, 0, [ParsedRow(1, guest, 1, "")]));
    StartAndList(s, 0, event, job, guest);
    CheckAndCommit(Apply(Apply(s, Start(0, job)), List(0)), 0, event, job, guest);
    FourSteps(s, Start(0, job), List(0), Check(0, Clear), Commit(0, Clear));
  }

  /** A row reported as failed although its guest is booked under the row's key. */
  ghost predicate Misreported(s: World) {
    && |s.t.rows| == 1 && s.t.rows[0].status == RowFailed && s.t.rows[0].error == Some(DUPLICATE)
    && |s.bookings| == 1 && s.bookings[0].active && s.bookings[0].key == KeyOf(s.t.rows[0])
  }

  lemma CheckFindsDuplicate(s: World, w: nat, event: Uuid, job: Uuid, guest: string)
    requires OneRow(s, event, job, guest) && WorkerAt(s, w) == Walking(job, [0], {})
    requires s.bookings == [Booking(RowKey(job, 1), guest, event, 0, 1, true)]
    ensures Apply(s, Check(w, Clear)) == Put(s, w, Recording(job, [0], {}, NotBooked(DUPLICATE)))
  {
    assert s.bookings[0].active;
  }

  /** A second walk of the booked row runs into the duplicate guard. */
  lemma SecondWalk(s: World, w: nat, event: Uuid, job: Uuid, guest: string)
    requires OneRow(s, event, job, guest) && WorkerAt(s, w).Idle?
    requires s.bookings == [Booking(RowKey(job, 1), guest, event, 0, 1, true)]
    ensures Misreported(Run(s, [Start(w, job), List(w), Check(w, Clear), Record(w, true)]))
  {
    StartAndList(s, w, event, job, guest);
    CheckFindsDuplicate(Apply(Apply(s, Start(w, job)), List(w)), w, event, job, guest);
    FourSteps(s, Start(w, job), List(w), Check(w, Clear), Record(w, true));
  }

  /** A result write on a row that is already resolved changes no row and no booking. */
  lemma LateRecord(s: World, w: nat)
    requires Misreported(s)
    ensures Misreported(Apply(s, Record(w, true)))
  {
  }

  /** A restart between a booking and its recording: the re-driven row is reported as failed
      while the guest holds the seat. The source promises the existing booking back. */
  lemma InterruptedRow(event: Uuid, job: Uuid, guest: string, seats: nat)
    requires 1 <= seats
    ensures Misreported(Run(Apply(BookedRun(event, job, guest, seats), Crash(0)),
      [Start(1, job), List(1), Check(1, Clear), Record(1, true)]))
  {
    BookedRunState(event, job, guest, seats);
    SecondWalk(Apply(BookedRun(event, job, guest, seats), Crash(0)), 1, event, job, guest);
  }

  /** Two workers on one job, no crash and no lost write: the wrong report wins. */
  lemma TwoWorkersOnOneJob(event: Uuid, job: Uuid, guest: string, seats: nat)
    requires 1 <= seats
    ensures Misreported(Apply(Run(BookedRun(event, job, guest, seats),
      [Start(1, job), List(1), Check(1, Clear), Record(1, true)]), Record(0, true)))
  {
    BookedRunState(event, job, guest, seats);
    SecondWalk(BookedRun(event, job, guest, seats), 1, event, job, guest);
    LateRecord(Run(BookedRun(event, job, guest, seats), [Start(1, job), List(1), Check(1, Clear), Record(1, true)]), 0);
  }

  /** The guest is booked under the row's key and the row is marked failed. */
  ghost predicate BookedButFailed(s: World) {
    && |s.t.rows| == 1 && s.t.rows[0].status == RowFailed
    && |s.bookings| == 1 && s.bookings[0].key == KeyOf(s.t.rows[0])
  }

  /** The second worker is refused for a passing reason and writes that down. */
  lemma SecondRefused(s: World, event: Uuid, job: Uuid, guest: string, why: string)
    requires OneRow(s, event, job, guest) && WorkerAt(s, 1) == Walking(job, [0], {})
    ensures var s' := Apply(Apply(s, Check(1, Refused(why))), Record(1, true));
      && s'.t.rows == [Row(job, 1, guest, 1, RowFailed, Some(why), None)] && s'.bookings == s.bookings
      && s'.capacity == s.capacity
      && job in s'.t.jobs && s'.t.jobs[job].event == event && s'.t.jobs[job].occurrence == 0
      && WorkerAt(s', 0) == WorkerAt(s, 0)
  {
  }

  /** The first worker still has the row on its list, books the guest and cannot say so. */
  lemma FirstCommits(s: World, event: Uuid, job: Uuid, guest: string, why: string)
    requires s.t.rows == [Row(job, 1, guest, 1, RowFailed, Some(why), None)] && s.bookings == []
    requires job in s.t.jobs && s.t.jobs[job].event == event && s.t.jobs[job].occurrence == 0
    requires event in s.capacity && 1 <= s.capacity[event] && WorkerAt(s, 0) == Walking(job, [0], {})
    ensures BookedButFailed(Apply(Apply(Apply(s, Check(0, Clear)), Commit(0, Clear)), Record(0, true)))
  {
    assert SeatColumn([], event, 0) == [];
  }

  /** A stale list: with no crash, no lost write and no lost reply, a worker books a row that
      another worker has already marked failed. */
  lemma StaleList(s: World, event: Uuid, job: Uuid, guest: string, why: string)
    requires OneRow(s, event, job, guest) && s.bookings == [] && event in s.capacity && 1 <= s.capacity[event]
    requires WorkerAt(s, 0).Idle? && WorkerAt(s, 1).Idle?
    ensures var listed := Run(s, [Start(0, job), List(0), Start(1, job), List(1)]);
      var failed := Apply(Apply(listed, Check(1, Refused(why))), Record(1, true));
      BookedButFailed(Apply(Apply(Apply(failed, Check(0, Clear)), Commit(0, Clear)), Record(0, true)))
  {
    StartAndList(s, 0, event, job, guest);
    var first := Apply(Apply(s, Start(0, job)), List(0));
    StartAndList(first, 1, event, job, guest);
    FourSteps(s, Start(0, job), List(0), Start(1, job), List(1));
    var listed := Apply(Apply(first, Start(1, job)), List(1));
    SecondRefused(listed, event, job, guest, why);
    FirstCommits(Apply(Apply(listed, Check(1, Refused(why))), Record(1, true)), event, job, guest, why);
  }
}
