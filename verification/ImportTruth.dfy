/** When the report a host reads tells the truth about the bookings that exist. */
module ImportTruth {
  import opened Common
  import opened ImportTables
  import opened WalkInDesk
  import opened ImportProtocol
  import opened ImportTheorems

  function KeyOf(row: Row): string {
    RowKey(row.job, row.number)
  }

  /** Worker `w` knows that row `i` was booked and has not written it down yet. */
  ghost predicate HoldsReply(s: World, w: nat, i: nat) {
    var pc := WorkerAt(s, w);
    pc.Recording? && pc.result.Booked? && pc.todo != [] && pc.todo[0] == i
  }

  // ---------------------------------------------------------------- a lost reply is lost for good

  /** A booking exists under the row's key, yet nobody is about to record it. */
  ghost predicate Orphan(s: World, i: nat) {
    && i < |s.t.rows|
    && s.t.rows[i].status != RowSuccess
    && KeyTaken(s.bookings, KeyOf(s.t.rows[i]))
    && forall w: nat :: !HoldsReply(s, w, i)
  }

  lemma KeyStaysTaken(a: seq<Booking>, b: seq<Booking>, key: string)
    requires KeysExtend(a, b) && KeyTaken(a, key)
    ensures KeyTaken(b, key)
  {
    var i :| 0 <= i < |a| && a[i].key == key;
    assert b[i].key == key;
  }

  lemma NoNewReply(s: World, step: Step, i: nat, v: nat)
    requires Inv(s) && Orphan(s, i)
    ensures !HoldsReply(Apply(s, step), v, i)
  {
    assert !HoldsReply(s, v, i);
    assert WorkerOk(s, WorkerAt(s, v));
  }

  lemma OrphanKept(s: World, step: Step, i: nat)
    requires Inv(s) && Orphan(s, i) && (step.Upload? ==> Numbered(step.parsed))
    ensures Orphan(Apply(s, step), i)
  {
    StepKeeps(s, step);
    KeyStaysTaken(s.bookings, Apply(s, step).bookings, KeyOf(s.t.rows[i]));
    forall v: nat ensures !HoldsReply(Apply(s, step), v, i) {
      NoNewReply(s, step, i, v);
    }
    OrphanNotSuccess(s, step, i);
  }

  lemma OrphanNotSuccess(s: World, step: Step, i: nat)
    requires Orphan(s, i) && RowsExtend(s.t, Apply(s, step).t)
    ensures Apply(s, step).t.rows[i].status != RowSuccess
  {
    if step.Record? {
      assert !HoldsReply(s, step.worker, i);
    } else if !step.Upload? {
      QuietTables(s, step);
    }
  }

  // ---------------------------------------------------------------- clean runs

  /** What must not happen: a second worker on a job being walked, a commit whose reply is
      lost, or a known booking that is not written down. */
  ghost predicate CleanStep(s: World, step: Step) {
    match step
    case Upload(_, _, _, parsed) => Numbered(parsed)
    case Start(w, job) => forall v: nat :: v != w ==> WorkerAt(s, v).Idle? || WorkerAt(s, v).job != job
    case Commit(_, weather) => !LosesReply(weather)
    case Record(w, lands) => lands || (WorkerAt(s, w).Recording? ==> WorkerAt(s, w).result.NotBooked?)
    case Crash(w) => WorkerAt(s, w).Recording? ==> WorkerAt(s, w).result.NotBooked?
    case _ => true
  }

  ghost predicate CleanRun(s: World, steps: seq<Step>) {
    steps == [] ||
    (CleanRun(s, steps[..|steps| - 1]) && CleanStep(Run(s, steps[..|steps| - 1]), steps[|steps| - 1]))
  }

  ghost predicate OneWorkerPerJob(s: World) {
    forall v: nat, w: nat :: v != w && !WorkerAt(s, v).Idle? && !WorkerAt(s, w).Idle? ==>
      WorkerAt(s, v).job != WorkerAt(s, w).job
  }

  /** A walker's list holds distinct pending rows. */
  ghost predicate FreshList(s: World, pc: Pc) {
    (pc.Walking? || pc.Cleared? || pc.Recording?) ==>
      && (forall k :: 0 <= k < |pc.todo| ==> IsPending(s.t.rows, pc.job, pc.todo[k]))
      && (forall k, l :: 0 <= k < l < |pc.todo| ==> pc.todo[k] != pc.todo[l])
  }

  ghost predicate FreshLists(s: World) {
    forall w: nat :: FreshList(s, WorkerAt(s, w))
  }

  /** A row whose key is taken is successful, or its booking is about to be recorded. */
  ghost predicate Truthful(s: World) {
    forall i: nat :: i < |s.t.rows| && KeyTaken(s.bookings, KeyOf(s.t.rows[i])) ==>
      s.t.rows[i].status == RowSuccess || exists w: nat :: HoldsReply(s, w, i)
  }

  /** Import keys are only used for rows that exist. */
  ghost predicate BulkKeysHaveRows(s: World) {
    forall b :: 0 <= b < |s.bookings| && IsBulkKey(s.bookings[b].key) ==>
      exists i: nat :: i < |s.t.rows| && s.bookings[b].key == KeyOf(s.t.rows[i])
  }

  ghost predicate CleanInv(s: World) {
    Inv(s) && OneWorkerPerJob(s) && FreshLists(s) && Truthful(s) && BulkKeysHaveRows(s)
  }

  lemma OneWorkerKept(s: World, step: Step)
    requires OneWorkerPerJob(s) && CleanStep(s, step)
    ensures OneWorkerPerJob(Apply(s, step))
  {
    var s' := Apply(s, step);
    forall v: nat | !WorkerAt(s', v).Idle? && !(step.Start? && step.worker == v)
      ensures !WorkerAt(s, v).Idle? && WorkerAt(s, v).job == WorkerAt(s', v).job
    {
    }
    forall v: nat, w: nat | v != w && !WorkerAt(s', v).Idle? && !WorkerAt(s', w).Idle?
      ensures WorkerAt(s', v).job != WorkerAt(s', w).job
    {
    }
  }

  lemma ListIsFresh(s: World, job: Uuid)
    requires SheetOrder(s.t.rows)
    ensures FreshList(s, Walking(job, PendingOf(s.t.rows, job), {}))
  {
    PendingOfSound(s.t.rows, job);
    var p := PendingOf(s.t.rows, job);
    forall k, l | 0 <= k < l < |p| ensures p[k] != p[l] {
      assert p[k] < |s.t.rows| && p[l] < |s.t.rows| && s.t.rows[p[k]].number < s.t.rows[p[l]].number;
    }
  }

  lemma FreshRecorded(s: World, w: nat, lands: bool, v: nat)
    requires OneWorkerPerJob(s) && FreshLists(s)
    ensures FreshList(RecordStep(s, w, lands), WorkerAt(RecordStep(s, w, lands), v))
  {
    var pc, s' := WorkerAt(s, w), RecordStep(s, w, lands);
    assert FreshList(s, pc) && FreshList(s, WorkerAt(s, v));
    if pc.Recording? && HasHead(s, pc) {
      var i := pc.todo[0];
      assert IsPending(s.t.rows, pc.job, i);
      assert forall k: nat :: k < |s.t.rows| && k != i ==> s'.t.rows[k] == s.t.rows[k];
      if v != w && !WorkerAt(s, v).Idle? {
        assert WorkerAt(s, v).job != pc.job;
      }
    }
  }

  predicate HasList(pc: Pc) {
    pc.Walking? || pc.Cleared? || pc.Recording?
  }

  /** Only listing and recording change a worker's list. */
  lemma ListsKept(s: World, step: Step, v: nat)
    requires !step.List? && !step.Record?
    ensures var pc, pc' := WorkerAt(s, v), WorkerAt(Apply(s, step), v);
      HasList(pc') ==> HasList(pc) && pc'.job == pc.job && pc'.todo == pc.todo
  {
  }

  lemma FreshQuiet(s: World, step: Step, v: nat)
    requires FreshLists(s) && !step.List? && !step.Record?
    requires SamePrefix(s.t.rows, Apply(s, step).t.rows)
    ensures FreshList(Apply(s, step), WorkerAt(Apply(s, step), v))
  {
    assert FreshList(s, WorkerAt(s, v));
    ListsKept(s, step, v);
  }

  lemma FreshListed(s: World, w: nat, v: nat)
    requires FreshLists(s) && SheetOrder(s.t.rows)
    ensures FreshList(Apply(s, List(w)), WorkerAt(Apply(s, List(w)), v))
  {
    assert FreshList(s, WorkerAt(s, v));
    if WorkerAt(s, w).Loading? { ListIsFresh(s, WorkerAt(s, w).job); }
  }

  ghost predicate SamePrefix(a: seq<Row>, b: seq<Row>) {
    |a| <= |b| && forall k :: 0 <= k < |a| ==> b[k] == a[k]
  }

  lemma RowsQuiet(s: World, step: Step)
    requires !step.Record?
    ensures SamePrefix(s.t.rows, Apply(s, step).t.rows)
  {
    if !step.Upload? { QuietTables(s, step); }
  }

  lemma FreshKept(s: World, step: Step)
    requires SheetOrder(s.t.rows) && OneWorkerPerJob(s) && FreshLists(s)
    ensures FreshLists(Apply(s, step))
  {
    forall v: nat ensures FreshList(Apply(s, step), WorkerAt(Apply(s, step), v)) {
      match step
      case Record(w, lands) => FreshRecorded(s, w, lands, v);
      case List(w) => FreshListed(s, w, v);
      case _ =>
        RowsQuiet(s, step);
        FreshQuiet(s, step, v);
    }
  }

  lemma BulkKeysKept(s: World, step: Step)
    requires Inv(s) && BulkKeysHaveRows(s) && Extends(s, Apply(s, step))
    ensures BulkKeysHaveRows(Apply(s, step))
  {
    var s' := Apply(s, step);
    forall b | 0 <= b < |s'.bookings| && IsBulkKey(s'.bookings[b].key)
      ensures exists i: nat :: i < |s'.t.rows| && s'.bookings[b].key == KeyOf(s'.t.rows[i])
    {
      if b < |s.bookings| {
        assert IsBulkKey(s.bookings[b].key);
        var i: nat :| i < |s.t.rows| && s.bookings[b].key == KeyOf(s.t.rows[i]);
        assert s'.bookings[b].key == KeyOf(s'.t.rows[i]);
      } else {
        assert step.Commit?;
        var pc := WorkerAt(s, step.worker);
        assert WorkerOk(s, pc);
        assert s'.bookings[b].key == KeyOf(s'.t.rows[pc.todo[0]]);
      }
    }
  }

  /** A row that was just uploaded has a free key. */
  lemma NewRowsAreFree(s: World, step: Step, i: nat)
    requires Inv(s) && BulkKeysHaveRows(s) && Extends(s, Apply(s, step))
    requires step.Upload? && |s.t.rows| <= i < |Apply(s, step).t.rows|
    ensures !KeyTaken(s.bookings, KeyOf(Apply(s, step).t.rows[i]))
  {
    var row := Apply(s, step).t.rows[i];
    if KeyTaken(s.bookings, KeyOf(row)) {
      var b :| 0 <= b < |s.bookings| && s.bookings[b].key == KeyOf(row);
      assert IsBulkKey(s.bookings[b].key);
      var k: nat :| k < |s.t.rows| && s.bookings[b].key == KeyOf(s.t.rows[k]);
      RowKeyInjective(row.job, row.number, s.t.rows[k].job, s.t.rows[k].number);
    }
  }

  lemma TruthfulCommitted(s: World, w: nat, weather: Weather)
    requires CleanInv(s) && !LosesReply(weather) && Extends(s, CommitStep(s, w, weather))
    ensures Truthful(CommitStep(s, w, weather))
  {
    var pc, s' := WorkerAt(s, w), CommitStep(s, w, weather);
    assert WorkerOk(s, pc);
    forall i: nat | i < |s'.t.rows| && KeyTaken(s'.bookings, KeyOf(s'.t.rows[i]))
      ensures s'.t.rows[i].status == RowSuccess || exists v: nat :: HoldsReply(s', v, i)
    {
      if KeyTaken(s.bookings, KeyOf(s.t.rows[i])) {
        if s.t.rows[i].status != RowSuccess {
          var v: nat :| HoldsReply(s, v, i);
          assert HoldsReply(s', v, i);
        }
      } else {
        var b :| 0 <= b < |s'.bookings| && s'.bookings[b].key == KeyOf(s.t.rows[i]);
        assert b == |s.bookings|;
        var row := HeadRow(s, pc);
        RowKeyInjective(row.job, row.number, s.t.rows[i].job, s.t.rows[i].number);
        assert HoldsReply(s', w, i);
      }
    }
  }

  lemma TruthfulRecorded(s: World, w: nat, lands: bool)
    requires CleanInv(s) && CleanStep(s, Record(w, lands)) && Extends(s, RecordStep(s, w, lands))
    ensures Truthful(RecordStep(s, w, lands))
  {
    var pc, s' := WorkerAt(s, w), RecordStep(s, w, lands);
    assert WorkerOk(s, pc) && FreshList(s, pc);
    forall i: nat | i < |s'.t.rows| && KeyTaken(s'.bookings, KeyOf(s'.t.rows[i]))
      ensures s'.t.rows[i].status == RowSuccess || exists v: nat :: HoldsReply(s', v, i)
    {
      if s.t.rows[i].status != RowSuccess {
        var v: nat :| HoldsReply(s, v, i);
        if v != w {
          assert HoldsReply(s', v, i);
        } else {
          assert IsPending(s.t.rows, pc.job, i);
        }
      }
    }
  }

  lemma ReplyKept(s: World, step: Step, v: nat, i: nat)
    requires HoldsReply(s, v, i) && CleanStep(s, step) && !step.Commit? && !step.Record?
    ensures HoldsReply(Apply(s, step), v, i)
  {
  }

  lemma TruthfulRow(s: World, step: Step, i: nat)
    requires CleanInv(s) && CleanStep(s, step) && !step.Commit? && !step.Record?
    requires i < |s.t.rows| && KeyTaken(s.bookings, KeyOf(s.t.rows[i]))
    ensures s.t.rows[i].status == RowSuccess || exists v: nat :: HoldsReply(Apply(s, step), v, i)
  {
    if s.t.rows[i].status != RowSuccess {
      var v: nat :| HoldsReply(s, v, i);
      ReplyKept(s, step, v, i);
    }
  }

  lemma TruthfulOther(s: World, step: Step)
    requires CleanInv(s) && CleanStep(s, step) && Extends(s, Apply(s, step))
    requires !step.Commit? && !step.Record?
    ensures Truthful(Apply(s, step))
  {
    var s' := Apply(s, step);
    RowsQuiet(s, step);
    forall i: nat | i < |s'.t.rows| && KeyTaken(s'.bookings, KeyOf(s'.t.rows[i]))
      ensures s'.t.rows[i].status == RowSuccess || exists v: nat :: HoldsReply(s', v, i)
    {
      SameImportKeys(s, step, KeyOf(s'.t.rows[i]));
      if i < |s.t.rows| {
        TruthfulRow(s, step, i);
      } else {
        assert step.Upload? by { if !step.Upload? { QuietTables(s, step); } }
        NewRowsAreFree(s, step, i);
      }
    }
  }

  /** Outside Commit, no import key becomes taken. */
  lemma SameImportKeys(s: World, step: Step, key: string)
    requires !step.Commit? && IsBulkKey(key) && KeyTaken(Apply(s, step).bookings, key)
    ensures KeyTaken(s.bookings, key)
  {
    var b :| 0 <= b < |Apply(s, step).bookings| && Apply(s, step).bookings[b].key == key;
    if step.Cancel? || step.OtherBooking? {
      assert b < |s.bookings| && s.bookings[b].key == key;
    } else {
      QuietDesk(s, step);
    }
  }

  lemma CleanStepKeeps(s: World, step: Step)
    requires CleanInv(s) && CleanStep(s, step)
    ensures CleanInv(Apply(s, step))
  {
    StepKeeps(s, step);
    OneWorkerKept(s, step);
    FreshKept(s, step);
    BulkKeysKept(s, step);
    match step
    case Commit(w, weather) => TruthfulCommitted(s, w, weather);
    case Record(w, lands) => TruthfulRecorded(s, w, lands);
    case _ => TruthfulOther(s, step);
  }

  lemma {:induction false} CleanRunInv(s: World, steps: seq<Step>)
    requires CleanInv(s) && CleanRun(s, steps)
    ensures CleanInv(Run(s, steps))
  {
    if steps != [] {
      CleanRunInv(s, steps[..|steps| - 1]);
      CleanStepKeeps(Run(s, steps[..|steps| - 1]), steps[|steps| - 1]);
    }
  }

  /** In a clean run a resolved row is successful exactly when a booking exists under its key. */
  lemma {:induction false} CleanRunsTellTheTruth(capacity: map<Uuid, int>, steps: seq<Step>, i: nat)
    requires RoomToStart(capacity) && CleanRun(Empty(capacity), steps)
    requires i < |Run(Empty(capacity), steps).t.rows|
    requires Run(Empty(capacity), steps).t.rows[i].status != RowPending
    ensures var s := Run(Empty(capacity), steps);
      s.t.rows[i].status == RowSuccess <==> KeyTaken(s.bookings, KeyOf(s.t.rows[i]))
  {
    EmptyInv(capacity);
    CleanRunInv(Empty(capacity), steps);
    var s := Run(Empty(capacity), steps);
    if s.t.rows[i].status == RowSuccess {
      assert Owns(s.bookings, s.t.rows[i]);
    } else {
      forall w: nat ensures !HoldsReply(s, w, i) {
        assert FreshList(s, WorkerAt(s, w));
      }
    }
  }
}
