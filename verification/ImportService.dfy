/** The import repository and service as they change the database, proved against the
    table functions, and shown to be runs of the protocol by a lone worker. */
module ImportService {
  import opened Common
  import opened ImportTables
  import opened WalkInDesk
  import opened ImportProtocol
  import opened ImportTheorems

  datatype Db = Db(t: Tables, bookings: seq<Booking>)

  /** One processRow: the attempt, then the result write if it lands. */
  function WalkRow(db: Db, capacity: map<Uuid, int>, id: nat, w: Weather, lands: bool, now: int): Db
    requires id < |db.t.rows| && db.t.rows[id].job in db.t.jobs
  {
    var row := db.t.rows[id];
    var (after, r) := Attempt(db.bookings, capacity, db.t.jobs[row.job], row, w);
    Db(if lands then MarkRow(db.t, id, r, now) else db.t, after)
  }

  ghost predicate TodoOk(t: Tables, job: Uuid, todo: seq<nat>) {
    job in t.jobs && forall k :: 0 <= k < |todo| ==> todo[k] < |t.rows| && t.rows[todo[k]].job == job
  }

  /** The first `n` rows of a walk. */
  ghost function Walk(db: Db, capacity: map<Uuid, int>, job: Uuid, todo: seq<nat>,
                      sky: nat -> Weather, lands: nat -> bool, now: int, n: nat): (r: Db)
    requires TodoOk(db.t, job, todo) && n <= |todo|
    ensures TodoOk(r.t, job, todo)
  {
    if n == 0 then db
    else
      WalkRow(Walk(db, capacity, job, todo, sky, lands, now, n - 1),
              capacity, todo[n - 1], sky(n - 1), lands(n - 1), now)
  }

  /** A walk moves no row to another job and leaves the job's slot alone. */
  lemma {:induction false} WalkFrame(db: Db, capacity: map<Uuid, int>, job: Uuid, todo: seq<nat>,
                                     sky: nat -> Weather, lands: nat -> bool, now: int, n: nat)
    requires TodoOk(db.t, job, todo) && n <= |todo|
    ensures var r := Walk(db, capacity, job, todo, sky, lands, now, n);
      r.t.jobs[job].event == db.t.jobs[job].event && r.t.jobs[job].occurrence == db.t.jobs[job].occurrence
  {
    if n > 0 { WalkFrame(db, capacity, job, todo, sky, lands, now, n - 1); }
  }

  /** Rows whose result write failed among the first `n`. */
  ghost function LostRows(todo: seq<nat>, lands: nat -> bool, n: nat): set<nat>
    requires n <= |todo|
  {
    set k | 0 <= k < n && !lands(k) :: todo[k]
  }

  /** Checking and committing, uninterrupted, is one attempt. */
  lemma CheckCommitIsAttempt(s: World, w: nat, weather: Weather)
    requires WorkerAt(s, w).Walking? && HasHead(s, WorkerAt(s, w))
    ensures var pc := WorkerAt(s, w);
      var (after, r) := Attempt(s.bookings, s.capacity, s.t.jobs[pc.job], HeadRow(s, pc), weather);
      CommitStep(CheckStep(s, w, weather), w, weather)
        == Put(s.(bookings := after), w, Recording(pc.job, pc.todo, pc.lost, r))
  {
    var pc, s2 := WorkerAt(s, w), CommitStep(CheckStep(s, w, weather), w, weather);
    assert s2.workers == s.workers[w := WorkerAt(s2, w)];
  }

  /** With the result write they do what one processRow does. */
  lemma RowIsThreeSteps(s: World, w: nat, weather: Weather, lands: bool)
    requires WorkerAt(s, w).Walking? && HasHead(s, WorkerAt(s, w))
    requires HeadRow(s, WorkerAt(s, w)).job == WorkerAt(s, w).job
    ensures var pc := WorkerAt(s, w);
      var db := WalkRow(Db(s.t, s.bookings), s.capacity, pc.todo[0], weather, lands, s.now);
      RecordStep(CommitStep(CheckStep(s, w, weather), w, weather), w, lands)
        == Put(s.(t := db.t, bookings := db.bookings), w,
               Walking(pc.job, pc.todo[1..], if lands then pc.lost else pc.lost + {pc.todo[0]}))
  {
    var pc := WorkerAt(s, w);
    CheckCommitIsAttempt(s, w, weather);
    var (after, r) := Attempt(s.bookings, s.capacity, s.t.jobs[pc.job], HeadRow(s, pc), weather);
    var s2 := Put(s.(bookings := after), w, Recording(pc.job, pc.todo, pc.lost, r));
    var s3 := RecordStep(s2, w, lands);
    assert s3.workers == s.workers[w := WorkerAt(s3, w)];
  }

  function RowSteps(w: nat, weather: Weather, lands: bool): seq<Step> {
    [Step.Check(w, weather), Step.Commit(w, weather), Step.Record(w, lands)]
  }

  lemma RunRow(s: World, w: nat, weather: Weather, lands: bool)
    ensures Run(s, RowSteps(w, weather, lands))
      == RecordStep(CommitStep(CheckStep(s, w, weather), w, weather), w, lands)
  {
    var a, b, c := Step.Check(w, weather), Step.Commit(w, weather), Step.Record(w, lands);
    assert RowSteps(w, weather, lands)[..2] == [a, b] && [a, b][..1] == [a] && [a][..0] == [];
    assert Run(s, [a]) == CheckStep(s, w, weather);
    assert Run(s, [a, b]) == CommitStep(Run(s, [a]), w, weather);
  }

  /** The world with tables `db` and worker `w` walking `todo`. */
  function At(s: World, w: nat, db: Db, job: Uuid, todo: seq<nat>, lost: set<nat>): World {
    Put(s.(t := db.t, bookings := db.bookings), w, Walking(job, todo, lost))
  }

  lemma RowRun(s: World, w: nat, db: Db, job: Uuid, todo: seq<nat>, lost: set<nat>, weather: Weather, lands: bool)
    requires todo != [] && job in db.t.jobs && todo[0] < |db.t.rows| && db.t.rows[todo[0]].job == job
    ensures Run(At(s, w, db, job, todo, lost), RowSteps(w, weather, lands))
         == At(s, w, WalkRow(db, s.capacity, todo[0], weather, lands, s.now), job, todo[1..],
               if lands then lost else lost + {todo[0]})
  {
    var m := At(s, w, db, job, todo, lost);
    RunRow(m, w, weather, lands);
    RowIsThreeSteps(m, w, weather, lands);
    var pc' := Walking(job, todo[1..], if lands then lost else lost + {todo[0]});
    assert m.workers[w := pc'] == s.workers[w := pc'];
  }

  lemma LostStep(todo: seq<nat>, lands: nat -> bool, n: nat)
    requires n < |todo|
    ensures LostRows(todo, lands, n + 1)
      == if lands(n) then LostRows(todo, lands, n) else LostRows(todo, lands, n) + {todo[n]}
  {
  }

  function Flatten(segments: seq<seq<Step>>): seq<Step> {
    if segments == [] then [] else Flatten(segments[..|segments| - 1]) + segments[|segments| - 1]
  }

  /** Runs from world to world join into one run. */
  lemma {:induction false} Relay(worlds: seq<World>, segments: seq<seq<Step>>)
    requires |worlds| == |segments| + 1
    requires forall k :: 0 <= k < |segments| ==> Run(worlds[k], segments[k]) == worlds[k + 1]
    ensures Run(worlds[0], Flatten(segments)) == worlds[|segments|]
  {
    if segments != [] {
      var n := |segments| - 1;
      Relay(worlds[..n + 1], segments[..n]);
      RunConcat(worlds[0], Flatten(segments[..n]), segments[n]);
    }
  }

  /** The world in which worker `w` has walked `n` rows. */
  ghost function Walked(s: World, w: nat, db: Db, job: Uuid, todo: seq<nat>, sky: nat -> Weather, lands: nat -> bool,
                        n: nat): World
    requires n <= |todo| && TodoOk(db.t, job, todo)
  {
    At(s, w, Walk(db, s.capacity, job, todo, sky, lands, s.now, n), job, todo[n..], LostRows(todo, lands, n))
  }

  lemma WalkedNext(s: World, w: nat, db: Db, job: Uuid, todo: seq<nat>, sky: nat -> Weather, lands: nat -> bool, n: nat)
    requires n < |todo| && TodoOk(db.t, job, todo)
    ensures Run(Walked(s, w, db, job, todo, sky, lands, n), RowSteps(w, sky(n), lands(n)))
         == Walked(s, w, db, job, todo, sky, lands, n + 1)
  {
    assert todo[n..][0] == todo[n] && todo[n..][1..] == todo[n + 1..];
    LostStep(todo, lands, n);
    RowRun(s, w, Walk(db, s.capacity, job, todo, sky, lands, s.now, n), job, todo[n..], LostRows(todo, lands, n),
           sky(n), lands(n));
  }

  lemma WalkedNone(s: World, w: nat, db: Db, job: Uuid, todo: seq<nat>, sky: nat -> Weather, lands: nat -> bool)
    requires TodoOk(db.t, job, todo)
    ensures Walked(s, w, db, job, todo, sky, lands, 0) == At(s, w, db, job, todo, {})
  {
    assert LostRows(todo, lands, 0) == {} && todo[0..] == todo;
  }

  /** The walk is a run of the protocol, so every theorem about runs applies to it. */
  lemma WalkIsARun(s: World, w: nat, db: Db, job: Uuid, todo: seq<nat>, sky: nat -> Weather, lands: nat -> bool, n: nat)
    requires n <= |todo| && TodoOk(db.t, job, todo)
    ensures Run(At(s, w, db, job, todo, {}), Flatten(seq(n, k requires 0 <= k < n => RowSteps(w, sky(k), lands(k)))))
         == Walked(s, w, db, job, todo, sky, lands, n)
  {
    var worlds := seq(n + 1, k requires 0 <= k <= n => Walked(s, w, db, job, todo, sky, lands, k));
    var segments := seq(n, k requires 0 <= k < n => RowSteps(w, sky(k), lands(k)));
    forall k | 0 <= k < n ensures Run(worlds[k], segments[k]) == worlds[k + 1] {
      WalkedNext(s, w, db, job, todo, sky, lands, k);
    }
    WalkedNone(s, w, db, job, todo, sky, lands);
    Relay(worlds, segments);
  }

  /** A whole walk whose result writes all land leaves no row of the job pending. */
  lemma {:induction false} FullWalkResolves(s: World, w: nat, job: Uuid, sky: nat -> Weather, lands: nat -> bool)
    requires Inv(s) && job in s.t.jobs && WorkerAt(s, w).Idle?
    requires forall k :: 0 <= k < |PendingOf(s.t.rows, job)| ==> lands(k)
    ensures TodoOk(s.t, job, PendingOf(s.t.rows, job))
    ensures var todo := PendingOf(s.t.rows, job);
      var e := Walk(Db(s.t, s.bookings), s.capacity, job, todo, sky, lands, s.now, |todo|);
      CountStatus(e.t.rows, job, RowPending) == 0
  {
    PendingOfSound(s.t.rows, job);
    var db, todo := Db(s.t, s.bookings), PendingOf(s.t.rows, job);
    var s0 := At(s, w, db, job, todo, {});
    OthersStayOk(s, s0, w);
    WalkIsARun(s, w, db, job, todo, sky, lands, |todo|);
    var steps := Flatten(seq(|todo|, k requires 0 <= k < |todo| => RowSteps(w, sky(k), lands(k))));
    NoUploads(w, sky, lands, |todo|);
    RunInv(s0, steps);
    assert LostRows(todo, lands, |todo|) == {};
    EndOfWalk(Run(s0, steps), w);
  }

  lemma {:induction false} NoUploads(w: nat, sky: nat -> Weather, lands: nat -> bool, n: nat)
    ensures Legal(Flatten(seq(n, k requires 0 <= k < n => RowSteps(w, sky(k), lands(k)))))
  {
    var segments := seq(n, k requires 0 <= k < n => RowSteps(w, sky(k), lands(k)));
    if n > 0 {
      NoUploads(w, sky, lands, n - 1);
      assert segments[..n - 1] == seq(n - 1, k requires 0 <= k < n - 1 => RowSteps(w, sky(k), lands(k)));
    }
  }

  /** Which statements around a walk fail: loading the job, marking it processing, listing its
      rows, marking it completed. */
  datatype Faults = Faults(load: bool, start: bool, list: bool, finish: bool)

  datatype WalkEnd = NotLoaded | NotStarted | NotListed | Interrupted | Walked

  class Database {
    var jobs: map<Uuid, Job>
    var rows: seq<Row>
    var bookings: seq<Booking>
    const capacity: map<Uuid, int>
    const now: int

    function T(): Tables
      reads this
    {
      Tables(jobs, rows)
    }

    ghost function Value(): Db
      reads this
    {
      Db(T(), bookings)
    }

    constructor (capacity: map<Uuid, int>, now: int)
      ensures Value() == Db(Tables(map[], []), []) && this.capacity == capacity && this.now == now
    {
      jobs, rows, bookings := map[], [], [];
      this.capacity, this.now := capacity, now;
    }

    /** One transaction: the job, its rows, and counters seeded from rows that arrived failed. */
    method CreateJobWithRows(id: Uuid, event: Uuid, occurrence: int, total: int, newRows: seq<Row>)
      requires id !in jobs && forall i :: 0 <= i < |newRows| ==> newRows[i].job == id
      modifies this
      ensures bookings == old(bookings) && rows == old(rows) + newRows
      ensures var f := CountStatus(newRows, id, RowFailed);
        jobs == old(jobs)[id := Job(event, occurrence, JobPending, None, total, f, 0, f, now, None)]
    {
      var job := Job(event, occurrence, JobPending, None, total, 0, 0, 0, now, None);
      var preFailed := 0;
      for i := 0 to |newRows|
        invariant preFailed == CountStatus(newRows[..i], id, RowFailed)
        modifies {}
      {
        assert newRows[..i + 1] == newRows[..i] + [newRows[i]];
        CountAppend(newRows[..i], newRows[i], id, RowFailed);
        if newRows[i].status == RowFailed {
          preFailed := preFailed + 1;
        }
      }
      assert newRows[..|newRows|] == newRows;
      if preFailed > 0 {
        job := job.(processed := preFailed, failed := preFailed, updatedAt := now);
      }
      CountNonNegative(newRows, id, RowFailed);
      rows := rows + newRows;
      jobs := jobs[id := job];
    }

    /** The part of StartImport after validation: every parsed line becomes a row with the line's
        own number, guest and quantity, waiting exactly when the line is usable. */
    method StartImport(id: Uuid, event: Uuid, occurrence: int, parsed: seq<ParsedRow>)
      requires id !in jobs
      modifies this
      ensures T() == CreateJob(old(T()), id, event, occurrence, parsed, now) && bookings == old(bookings)
      ensures |rows| == old(|rows|) + |parsed| && rows[..old(|rows|)] == old(rows)
      ensures forall i :: 0 <= i < |parsed| ==>
        var row, p := rows[old(|rows|) + i], parsed[i];
        && row.job == id && row.number == p.number && row.guest == p.guest && row.quantity == p.quantity
        && (row.status == RowPending <==> p.err == "") && (p.err == "" ==> row.error == None)
        && (p.err != "" ==> row.status == RowFailed && row.error == Some(p.err))
      ensures id in jobs && jobs[id].event == event && jobs[id].occurrence == occurrence
      ensures jobs[id].status == JobPending && jobs[id].total == |parsed| && jobs - {id} == old(jobs) - {id}
    {
      var newRows: seq<Row> := [];
      for i := 0 to |parsed|
        invariant newRows == ToRows(id, parsed[..i])
      {
        var row := Row(id, parsed[i].number, parsed[i].guest, parsed[i].quantity, RowPending, None, None);
        if parsed[i].err != "" {
          row := row.(status := RowFailed, error := Some(parsed[i].err));
        }
        newRows := newRows + [row];
      }
      assert parsed[..|parsed|] == parsed;
      CreateJobWithRows(id, event, occurrence, |parsed|, newRows);
    }

    method MarkRowResult(id: nat, r: RowResult)
      modifies this
      ensures T() == MarkRow(old(T()), id, r, now) && bookings == old(bookings)
      ensures id < old(|rows|) && old(rows)[id].status == RowPending ==>
        && rows == old(rows)[id := match r
             case Booked(b) => old(rows)[id].(status := RowSuccess, error := None, booking := Some(b))
             case NotBooked(m) => old(rows)[id].(status := RowFailed, error := Some(m), booking := None)]
        && (forall j | j in old(jobs) && j != old(rows)[id].job :: j in jobs && jobs[j] == old(jobs)[j])
        && (rows[id].job in old(jobs) ==>
              var j := old(jobs)[rows[id].job];
              && rows[id].job in jobs
              && jobs[rows[id].job] == j.(processed := j.processed + 1, updatedAt := now,
                                          success := if r.Booked? then j.success + 1 else j.success,
                                          failed := if r.Booked? then j.failed else j.failed + 1))
      ensures id >= old(|rows|) || old(rows)[id].status != RowPending ==> T() == old(T())
    {
      if id >= |rows| || rows[id].status != RowPending {
        return;
      }
      rows := rows[id := Resolve(rows[id], r)];
      var job := rows[id].job;
      if job in jobs {
        var success, failed := 0, 0;
        if r.Booked? { success := 1; } else { failed := 1; }
        var j := jobs[job];
        jobs := jobs[job := j.(processed := j.processed + 1, success := j.success + success,
                               failed := j.failed + failed, updatedAt := now)];
      }
    }

    method SetJobStatus(job: Uuid, st: JobStatus, error: Option<string>)
      modifies this
      ensures T() == SetStatus(old(T()), job, st, error, now) && bookings == old(bookings)
      ensures rows == old(rows) && (job !in old(jobs) ==> jobs == old(jobs))
      ensures job in old(jobs) ==>
        && jobs.Keys == old(jobs).Keys && (forall j | j in jobs && j != job :: jobs[j] == old(jobs)[j])
        && jobs[job] == old(jobs)[job].(
             status := st, error := error, updatedAt := now,
             completedAt := if st in {JobCompleted, JobFailed} then Some(now) else old(jobs)[job].completedAt)
    {
      if job in jobs {
        var j := jobs[job].(status := st, error := error, updatedAt := now);
        if st == JobCompleted || st == JobFailed {
          j := j.(completedAt := Some(now));
        }
        jobs := jobs[job := j];
      }
    }

    method ClaimStaleJobs() returns (ids: set<Uuid>)
      modifies this
      ensures T() == Sweep(old(T()), now) && bookings == old(bookings)
      ensures ids == set id | id in old(jobs) && Stale(old(jobs)[id], now)
      ensures rows == old(rows) && jobs.Keys == old(jobs).Keys
      ensures forall id | id in old(jobs) ::
        var j := old(jobs)[id];
        && (id in ids <==> j.status in {JobPending, JobProcessing} && now - j.updatedAt > 5 * 60)
        && jobs[id] == if id in ids then j.(status := JobPending, updatedAt := now) else j
    {
      ids := set id | id in jobs && Stale(jobs[id], now);
      jobs := map id | id in jobs ::
        if id in ids then jobs[id].(status := JobPending, updatedAt := now) else jobs[id];
    }

    method ListPendingRows(job: Uuid) returns (ids: seq<nat>)
      ensures ids == PendingOf(rows, job)
    {
      ids := [];
      for i := 0 to |rows|
        invariant ids == PendingBelow(rows, job, i)
      {
        if rows[i].job == job && rows[i].status == RowPending {
          ids := ids + [i];
        }
      }
    }

    /** One row: the walk-in attempt, then the result write, which may fail. */
    method ProcessRow(job: Job, id: nat, weather: Weather, lands: bool)
      requires id < |rows| && rows[id].job in jobs
      requires job.event == jobs[rows[id].job].event && job.occurrence == jobs[rows[id].job].occurrence
      modifies this
      ensures Value() == WalkRow(old(Value()), capacity, id, weather, lands, now)
    {
      var (after, r) := Attempt(bookings, capacity, job, rows[id], weather);
      bookings := after;
      if lands {
        MarkRowResult(id, r);
      }
    }

    /** Walks the job's pending rows. `stop` is the row before which the context expires, and
        `faults` says which of the statements around the walk fail. */
    method ProcessJob(id: Uuid, sky: nat -> Weather, lands: nat -> bool, stop: nat, faults: Faults)
      returns (end: WalkEnd)
      requires Consistent(T())
      modifies this
      ensures var loaded := id in old(jobs) && !faults.load;
        var t0 := SetStatus(old(T()), id, JobProcessing, None, now);
        var todo := PendingOf(old(rows), id);
        match end
        case NotLoaded => !loaded && Value() == old(Value())
        case NotStarted => loaded && faults.start && Value() == old(Value())
        case NotListed =>
          && loaded && !faults.start && faults.list
          && Value() == Db(SetStatus(t0, id, JobFailed, Some(UNREADABLE), now), old(bookings))
        case Interrupted =>
          && loaded && !faults.start && !faults.list && stop < |todo| && TodoOk(t0, id, todo)
          && Value() == Walk(Db(t0, old(bookings)), capacity, id, todo, sky, lands, now, stop)
        case Walked =>
          && loaded && !faults.start && !faults.list && |todo| <= stop && TodoOk(t0, id, todo)
          && var db := Walk(Db(t0, old(bookings)), capacity, id, todo, sky, lands, now, |todo|);
             Value() == if faults.finish then db else Db(SetStatus(db.t, id, JobCompleted, None, now), db.bookings)
    {
      if id !in jobs || faults.load { return NotLoaded; }
      var job := jobs[id];
      if faults.start { return NotStarted; }
      SetJobStatus(id, JobProcessing, None);
      ghost var start := Value();
      if faults.list {
        SetJobStatus(id, JobFailed, Some(UNREADABLE));
        return NotListed;
      }
      var todo := ListPendingRows(id);
      PendingOfSound(rows, id);
      assert TodoOk(start.t, id, todo);
      var k := 0;
      while k < |todo|
        invariant 0 <= k <= |todo| && k <= stop
        invariant Value() == Walk(start, capacity, id, todo, sky, lands, now, k)
      {
        if k == stop { return Interrupted; }
        WalkFrame(start, capacity, id, todo, sky, lands, now, k);
        ProcessRow(job, todo[k], sky(k), lands(k));
        k := k + 1;
      }
      end := Walked;
      if !faults.finish {
        SetJobStatus(id, JobCompleted, None);
      }
    }
  }
}
