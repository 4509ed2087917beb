/** The import protocol as interleavings: any number of workers, crashes, lost result
    writes, sweeps, cancellations and other bookings, one atomic statement per step. */
module ImportProtocol {
  import opened Common
  import opened ImportTables
  import opened WalkInDesk

  /** Where a worker stands. `lost` remembers the rows whose result write failed on its walk. */
  datatype Pc =
    | Idle
    | Loading(job: Uuid)
    | Walking(job: Uuid, todo: seq<nat>, lost: set<nat>)
    | Cleared(job: Uuid, todo: seq<nat>, lost: set<nat>)                        // checks passed, not yet committed
    | Recording(job: Uuid, todo: seq<nat>, lost: set<nat>, result: RowResult)   // result known, not yet written

  datatype World = World(
    t: Tables, bookings: seq<Booking>, capacity: map<Uuid, int>, workers: map<nat, Pc>, now: int)

  datatype Step =
    | Upload(id: Uuid, event: Uuid, occurrence: int, parsed: seq<ParsedRow>)
    | Start(worker: nat, job: Uuid)
    | List(worker: nat)
    | ListFails(worker: nat)
    | Check(worker: nat, weather: Weather)
    | Commit(worker: nat, weather: Weather)
    | Record(worker: nat, lands: bool)
    | Finish(worker: nat, lands: bool)
    | Crash(worker: nat)
    | SweepJobs
    | Tick(seconds: nat)
    | Cancel(booking: nat)
    | OtherBooking(b: Booking)

  const UNREADABLE := "could not read import rows"

  function WorkerAt(s: World, w: nat): Pc {
    if w in s.workers then s.workers[w] else Idle
  }

  function Put(s: World, w: nat, pc: Pc): World {
    s.(workers := s.workers[w := pc])
  }

  predicate HasHead(s: World, pc: Pc) {
    (pc.Walking? || pc.Cleared? || pc.Recording?) && pc.job in s.t.jobs && pc.todo != [] && pc.todo[0] < |s.t.rows|
  }

  function HeadRow(s: World, pc: Pc): Row
    requires HasHead(s, pc)
  {
    s.t.rows[pc.todo[0]]
  }

  function CheckStep(s: World, w: nat, weather: Weather): World {
    var pc := WorkerAt(s, w);
    if !pc.Walking? || !HasHead(s, pc) then s
    else
      match Precheck(s.bookings, s.capacity, s.t.jobs[pc.job], HeadRow(s, pc), weather)
      case None => Put(s, w, Cleared(pc.job, pc.todo, pc.lost))
      case Some(r) => Put(s, w, Recording(pc.job, pc.todo, pc.lost, r))
  }

  function CommitStep(s: World, w: nat, weather: Weather): World {
    var pc := WorkerAt(s, w);
    if !pc.Cleared? || !HasHead(s, pc) then s
    else
      var (after, r) := WalkInDesk.Commit(s.bookings, s.capacity, s.t.jobs[pc.job], HeadRow(s, pc), weather);
      Put(s.(bookings := after), w, Recording(pc.job, pc.todo, pc.lost, r))
  }

  function RecordStep(s: World, w: nat, lands: bool): World {
    var pc := WorkerAt(s, w);
    if !pc.Recording? || !HasHead(s, pc) then s
    else if lands then
      Put(s.(t := MarkRow(s.t, pc.todo[0], pc.result, s.now)), w, Walking(pc.job, pc.todo[1..], pc.lost))
    else
      Put(s, w, Walking(pc.job, pc.todo[1..], pc.lost + {pc.todo[0]}))
  }

  /** One atomic step; a step that is not enabled changes nothing. */
  function Apply(s: World, step: Step): World {
    match step
    case Upload(id, event, occurrence, parsed) =>
      if id in s.t.jobs then s else s.(t := CreateJob(s.t, id, event, occurrence, parsed, s.now))
    case Start(w, job) =>
      if !WorkerAt(s, w).Idle? || job !in s.t.jobs then s
      else Put(s.(t := SetStatus(s.t, job, JobProcessing, None, s.now)), w, Loading(job))
    case List(w) =>
      var pc := WorkerAt(s, w);
      if !pc.Loading? then s else Put(s, w, Walking(pc.job, PendingOf(s.t.rows, pc.job), {}))
    case ListFails(w) =>
      var pc := WorkerAt(s, w);
      if !pc.Loading? then s
      else Put(s.(t := SetStatus(s.t, pc.job, JobFailed, Some(UNREADABLE), s.now)), w, Idle)
    case Check(w, weather) => CheckStep(s, w, weather)
    case Commit(w, weather) => CommitStep(s, w, weather)
    case Record(w, lands) => RecordStep(s, w, lands)
    case Finish(w, lands) =>
      var pc := WorkerAt(s, w);
      if !pc.Walking? || pc.todo != [] then s
      else Put(if lands then s.(t := SetStatus(s.t, pc.job, JobCompleted, None, s.now)) else s, w, Idle)
    case Crash(w) => Put(s, w, Idle)
    case SweepJobs => s.(t := Sweep(s.t, s.now))
    case Tick(seconds) => s.(now := s.now + seconds)
    case Cancel(b) =>
      if b >= |s.bookings| then s else s.(bookings := s.bookings[b := s.bookings[b].(active := false)])
    case OtherBooking(b) =>
      if IsBulkKey(b.key) then s
      else match Insert(s.bookings, s.capacity, b) case Some(after) => s.(bookings := after) case None => s
  }

  function Run(s: World, steps: seq<Step>): World {
    if steps == [] then s else Apply(Run(s, steps[..|steps| - 1]), steps[|steps| - 1])
  }

  /** Sheets are numbered by the parser, so an upload's row numbers increase. */
  ghost predicate Legal(steps: seq<Step>) {
    forall i :: 0 <= i < |steps| && steps[i].Upload? ==> Numbered(steps[i].parsed)
  }

  function Empty(capacity: map<Uuid, int>): World {
    World(Tables(map[], []), [], capacity, map[], 0)
  }

  ghost predicate RoomToStart(capacity: map<Uuid, int>) {
    forall e | e in capacity :: 0 <= capacity[e]
  }

  // ---------------------------------------------------------------- the invariant

  /** A successful row owns the booking made under its own key. */
  ghost predicate Owns(bookings: seq<Booking>, row: Row) {
    row.booking.Some? && row.booking.value < |bookings|
    && bookings[row.booking.value].key == RowKey(row.job, row.number)
  }

  ghost predicate SuccessesOwn(s: World) {
    forall i :: 0 <= i < |s.t.rows| && s.t.rows[i].status == RowSuccess ==> Owns(s.bookings, s.t.rows[i])
  }

  ghost predicate DeskOk(s: World) {
    KeysUnique(s.bookings) && NoOverbooking(s.bookings, s.capacity)
  }

  /** A worker's list covers the job's pending rows except those whose write it lost. */
  ghost predicate Covers(t: Tables, pc: Pc) {
    (pc.Walking? || pc.Cleared? || pc.Recording?) ==>
      forall i: nat :: IsPending(t.rows, pc.job, i) ==> i in pc.todo || i in pc.lost
  }

  ghost predicate WorkerOk(s: World, pc: Pc) {
    && (!pc.Idle? ==> pc.job in s.t.jobs)
    && (pc.Walking? || pc.Cleared? || pc.Recording? ==>
          && (forall k :: 0 <= k < |pc.todo| ==> pc.todo[k] < |s.t.rows| && s.t.rows[pc.todo[k]].job == pc.job))
    && (pc.Cleared? || pc.Recording? ==> pc.todo != [])
    && (pc.Recording? && pc.result.Booked? ==>
          && pc.result.booking < |s.bookings|
          && s.bookings[pc.result.booking].key == RowKey(pc.job, s.t.rows[pc.todo[0]].number))
    && Covers(s.t, pc)
  }

  ghost predicate WorkersOk(s: World) {
    forall w: nat :: WorkerOk(s, WorkerAt(s, w))
  }

  ghost predicate Inv(s: World) {
    Consistent(s.t) && SuccessesOwn(s) && DeskOk(s) && WorkersOk(s)
  }

  /** Bookings are only added and deactivated; keys stay. */
  ghost predicate KeysExtend(a: seq<Booking>, b: seq<Booking>) {
    |a| <= |b| && forall i :: 0 <= i < |a| ==> b[i].key == a[i].key
  }

  /** What every step does to the shared tables. */
  ghost predicate Extends(s: World, s': World) {
    RowsExtend(s.t, s'.t) && KeysExtend(s.bookings, s'.bookings) && s'.capacity == s.capacity
  }

  lemma ExtendsTransitive(a: World, b: World, c: World)
    requires Extends(a, b) && Extends(b, c)
    ensures Extends(a, c)
  {
    forall i | |a.t.rows| <= i < |c.t.rows| ensures c.t.rows[i].job !in a.t.jobs {
      if i < |b.t.rows| { assert b.t.rows[i].job !in a.t.jobs; }
    }
  }

  /** A worker that did not move stays sound when the tables extend. */
  lemma WorkerStaysOk(s: World, s': World, pc: Pc)
    requires WorkerOk(s, pc) && Extends(s, s')
    ensures WorkerOk(s', pc)
  {
    if pc.Walking? || pc.Cleared? || pc.Recording? {
      forall i: nat | IsPending(s'.t.rows, pc.job, i) ensures i in pc.todo || i in pc.lost {
        assert i < |s.t.rows|;
        assert IsPending(s.t.rows, pc.job, i);
      }
    }
  }

  lemma OthersStayOk(s: World, s': World, w: nat)
    requires WorkersOk(s) && Extends(s, s')
    requires forall v: nat :: v != w ==> WorkerAt(s', v) == WorkerAt(s, v)
    requires WorkerOk(s', WorkerAt(s', w))
    ensures WorkersOk(s')
  {
    forall v: nat ensures WorkerOk(s', WorkerAt(s', v)) {
      if v != w {
        assert WorkerOk(s, WorkerAt(s, v));
        WorkerStaysOk(s, s', WorkerAt(s, v));
      }
    }
  }

  lemma AllStayOk(s: World, s': World)
    requires WorkersOk(s) && Extends(s, s') && s'.workers == s.workers
    ensures WorkersOk(s')
  {
    assert WorkerOk(s, WorkerAt(s, 0));
    WorkerStaysOk(s, s', WorkerAt(s, 0));
    OthersStayOk(s, s', 0);
  }

  // ---------------------------------------------------------------- one step

  /** Uploads and result writes aside, no step touches rows or counters. */
  lemma QuietTables(s: World, step: Step)
    requires !step.Upload? && !step.Record?
    ensures SameCounters(s.t, Apply(s, step).t)
  {
  }

  lemma RecordTables(s: World, w: nat, lands: bool)
    requires Consistent(s.t)
    ensures Consistent(RecordStep(s, w, lands).t) && RowsExtend(s.t, RecordStep(s, w, lands).t)
  {
    var pc := WorkerAt(s, w);
    if pc.Recording? && HasHead(s, pc) && lands {
      MarkRowKeeps(s.t, pc.todo[0], pc.result, s.now);
    } else {
      SameCountersKeeps(s.t, s.t);
    }
  }

  lemma TablesKeep(s: World, step: Step)
    requires Consistent(s.t) && (step.Upload? ==> Numbered(step.parsed))
    ensures Consistent(Apply(s, step).t) && RowsExtend(s.t, Apply(s, step).t)
  {
    match step
    case Upload(id, event, occurrence, parsed) =>
      if id !in s.t.jobs { CreateJobKeeps(s.t, id, event, occurrence, parsed, s.now); }
    case Record(w, lands) => RecordTables(s, w, lands);
    case _ =>
      QuietTables(s, step);
      SameCountersKeeps(s.t, Apply(s, step).t);
  }

  lemma QuietDesk(s: World, step: Step)
    requires !step.Commit? && !step.Cancel? && !step.OtherBooking?
    ensures Apply(s, step).bookings == s.bookings && Apply(s, step).capacity == s.capacity
  {
  }

  lemma CommitDesk(s: World, w: nat, weather: Weather)
    requires DeskOk(s)
    ensures DeskOk(CommitStep(s, w, weather)) && KeysExtend(s.bookings, CommitStep(s, w, weather).bookings)
  {
    var pc := WorkerAt(s, w);
    if pc.Cleared? && HasHead(s, pc) {
      var b := NewBooking(s.t.jobs[pc.job], HeadRow(s, pc));
      if Insert(s.bookings, s.capacity, b).Some? { InsertKeeps(s.bookings, s.capacity, b); }
    }
  }

  lemma DeskKeeps(s: World, step: Step)
    requires DeskOk(s)
    ensures DeskOk(Apply(s, step)) && KeysExtend(s.bookings, Apply(s, step).bookings)
    ensures Apply(s, step).capacity == s.capacity
  {
    match step
    case Commit(w, weather) => CommitDesk(s, w, weather);
    case Cancel(b) =>
      if b < |s.bookings| { CancelKeeps(s.bookings, s.capacity, b); }
    case OtherBooking(b) =>
      if Insert(s.bookings, s.capacity, b).Some? { InsertKeeps(s.bookings, s.capacity, b); }
    case _ => QuietDesk(s, step);
  }

  /** Only a landing record turns a row successful, and it carries its own booking. */
  lemma SuccessesKeep(s: World, step: Step)
    requires SuccessesOwn(s) && WorkersOk(s) && Extends(s, Apply(s, step))
    ensures SuccessesOwn(Apply(s, step))
  {
    match step
    case Record(w, lands) => assert WorkerOk(s, WorkerAt(s, w));
    case _ =>
  }

  lemma ListedOk(s: World, w: nat)
    requires WorkersOk(s) && SheetOrder(s.t.rows)
    ensures WorkersOk(Apply(s, List(w)))
  {
    var pc, s' := WorkerAt(s, w), Apply(s, List(w));
    assert WorkerOk(s, pc);
    if pc.Loading? {
      PendingOfSound(s.t.rows, pc.job);
      OthersStayOk(s, s', w);
    }
  }

  lemma CheckedOk(s: World, w: nat, weather: Weather)
    requires WorkersOk(s)
    ensures WorkersOk(CheckStep(s, w, weather))
  {
    assert WorkerOk(s, WorkerAt(s, w));
    OthersStayOk(s, CheckStep(s, w, weather), w);
  }

  lemma CommittedOk(s: World, w: nat, weather: Weather)
    requires WorkersOk(s) && Extends(s, CommitStep(s, w, weather))
    ensures WorkersOk(CommitStep(s, w, weather))
  {
    assert WorkerOk(s, WorkerAt(s, w));
    OthersStayOk(s, CommitStep(s, w, weather), w);
  }

  lemma RecordedOk(s: World, w: nat, lands: bool)
    requires WorkersOk(s) && Extends(s, RecordStep(s, w, lands))
    ensures WorkersOk(RecordStep(s, w, lands))
  {
    var pc, s' := WorkerAt(s, w), RecordStep(s, w, lands);
    var pc' := WorkerAt(s', w);
    assert WorkerOk(s, pc);
    if pc.Recording? && HasHead(s, pc) {
      forall i: nat | IsPending(s'.t.rows, pc.job, i) ensures i in pc'.todo || i in pc'.lost {
        assert IsPending(s.t.rows, pc.job, i);
        assert i in pc.todo ==> i == pc.todo[0] || i in pc.todo[1..];
      }
    }
    OthersStayOk(s, s', w);
  }

  /** Starting or ending a walk. */
  lemma BoundaryOk(s: World, step: Step)
    requires step.Start? || step.ListFails? || step.Finish? || step.Crash?
    requires WorkersOk(s) && Extends(s, Apply(s, step))
    ensures WorkersOk(Apply(s, step))
  {
    var w, s' := step.worker, Apply(s, step);
    assert WorkerOk(s, WorkerAt(s, w));
    WorkerStaysOk(s, s', WorkerAt(s, w));
    OthersStayOk(s, s', w);
  }

  lemma WorkersKeep(s: World, step: Step)
    requires WorkersOk(s) && SheetOrder(s.t.rows) && Extends(s, Apply(s, step))
    ensures WorkersOk(Apply(s, step))
  {
    match step
    case List(w) => ListedOk(s, w);
    case Check(w, weather) => CheckedOk(s, w, weather);
    case Commit(w, weather) => CommittedOk(s, w, weather);
    case Record(w, lands) => RecordedOk(s, w, lands);
    case Start(_, _) => BoundaryOk(s, step);
    case ListFails(_) => BoundaryOk(s, step);
    case Finish(_, _) => BoundaryOk(s, step);
    case Crash(_) => BoundaryOk(s, step);
    case _ => AllStayOk(s, Apply(s, step));
  }

  lemma StepKeeps(s: World, step: Step)
    requires Inv(s) && (step.Upload? ==> Numbered(step.parsed))
    ensures Inv(Apply(s, step)) && Extends(s, Apply(s, step))
  {
    TablesKeep(s, step);
    DeskKeeps(s, step);
    SuccessesKeep(s, step);
    WorkersKeep(s, step);
  }
}
