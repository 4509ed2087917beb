/** Exactly when the report of an import is wrong about a row, over every legal run with any
    number of workers. */
module ImportReport {
  import opened Common
  import opened ImportTables
  import opened WalkInDesk
  import opened ImportProtocol
  import opened ImportTheorems
  import opened ImportTruth

  /** Worker `w` is about to commit a booking for row `i`, and the commit will be accepted. */
  ghost predicate Commits(s: World, w: nat, i: nat) {
    var pc := WorkerAt(s, w);
    && pc.Cleared? && HasHead(s, pc) && pc.todo[0] == i
    && !KeyTaken(s.bookings, KeyOf(s.t.rows[i]))
    && var b := NewBooking(s.t.jobs[pc.job], s.t.rows[i]);
       Fits(s.bookings, s.capacity, b.event, b.occurrence, b.quantity)
  }

  /** Worker `w` has been told that row `i` was not booked, and is about to write that down. */
  ghost predicate HoldsRefusal(s: World, w: nat, i: nat) {
    var pc := WorkerAt(s, w);
    pc.Recording? && HasHead(s, pc) && pc.todo[0] == i && pc.result.NotBooked?
  }

  /** What can go wrong for row `i` in one step: a commit whose reply is lost; a commit from a
      stale list on a row already failed; a booking known to a worker whose result write fails
      or who dies; a refusal written to a pending row whose booking exists. */
  ghost predicate Befalls(s: World, step: Step, i: nat) {
    i < |s.t.rows| &&
    match step
    case Commit(w, weather) => Commits(s, w, i) && (LosesReply(weather) || s.t.rows[i].status == RowFailed)
    case Record(w, lands) =>
      if lands then
        HoldsRefusal(s, w, i) && s.t.rows[i].status == RowPending && KeyTaken(s.bookings, KeyOf(s.t.rows[i]))
      else HoldsReply(s, w, i)
    case Crash(w) => HoldsReply(s, w, i)
    case _ => false
  }

  ghost predicate Befell(s: World, steps: seq<Step>, i: nat)
    decreases |steps|
  {
    steps != [] &&
    (Befell(s, steps[..|steps| - 1], i) || Befalls(Run(s, steps[..|steps| - 1]), steps[|steps| - 1], i))
  }

  // ---------------------------------------------------------------- one holder of a reply

  ghost predicate OneHolder(s: World) {
    && (forall v: nat, w: nat, i: nat :: HoldsReply(s, v, i) && HoldsReply(s, w, i) ==> v == w)
    && (forall w: nat, i: nat :: HoldsReply(s, w, i) && i < |s.t.rows| ==> s.t.rows[i].status != RowSuccess)
  }

  ghost predicate ReportInv(s: World) {
    Inv(s) && OneHolder(s) && BulkKeysHaveRows(s)
  }

  lemma HolderKnowsBooking(s: World, w: nat, i: nat)
    requires WorkersOk(s) && HoldsReply(s, w, i)
    ensures i < |s.t.rows| && KeyTaken(s.bookings, KeyOf(s.t.rows[i]))
  {
    var pc := WorkerAt(s, w);
    assert WorkerOk(s, pc);
    assert s.bookings[pc.result.booking].key == KeyOf(s.t.rows[i]);
  }

  lemma SuccessHasKey(s: World, i: nat)
    requires SuccessesOwn(s) && i < |s.t.rows| && s.t.rows[i].status == RowSuccess
    ensures KeyTaken(s.bookings, KeyOf(s.t.rows[i]))
  {
    assert Owns(s.bookings, s.t.rows[i]);
  }

  /** A reply is either kept or just received for a commit on a free key. */
  lemma ReplyComesFrom(s: World, step: Step, v: nat, i: nat)
    requires WorkersOk(s) && HoldsReply(Apply(s, step), v, i)
    ensures HoldsReply(s, v, i) || (step.Commit? && step.worker == v && Commits(s, v, i))
    ensures HoldsReply(s, v, i) ==> !(step.Record? && step.worker == v) && !(step.Crash? && step.worker == v)
  {
    assert WorkerOk(s, WorkerAt(s, v));
  }

  /** A row becomes successful only when its holder's result write lands. */
  lemma SuccessComesFrom(s: World, step: Step, i: nat)
    requires i < |s.t.rows| && s.t.rows[i].status != RowSuccess
    requires i < |Apply(s, step).t.rows| && Apply(s, step).t.rows[i].status == RowSuccess
    ensures step.Record? && HoldsReply(s, step.worker, i)
  {
    if !step.Record? && !step.Upload? { QuietTables(s, step); }
  }

  lemma HolderNotSuccess(s: World, step: Step, v: nat, i: nat)
    requires ReportInv(s) && Extends(s, Apply(s, step)) && HoldsReply(Apply(s, step), v, i)
    ensures i < |s.t.rows| && Apply(s, step).t.rows[i].status != RowSuccess
  {
    ReplyComesFrom(s, step, v, i);
    if HoldsReply(s, v, i) {
      HolderKnowsBooking(s, v, i);
    } else if s.t.rows[i].status == RowSuccess {
      SuccessHasKey(s, i);
    }
    if Apply(s, step).t.rows[i].status == RowSuccess {
      SuccessComesFrom(s, step, i);
    }
  }

  lemma HoldersAgree(s: World, step: Step, v: nat, w: nat, i: nat)
    requires ReportInv(s) && HoldsReply(Apply(s, step), v, i) && HoldsReply(Apply(s, step), w, i)
    ensures v == w
  {
    ReplyComesFrom(s, step, v, i);
    ReplyComesFrom(s, step, w, i);
    if HoldsReply(s, v, i) { HolderKnowsBooking(s, v, i); }
    if HoldsReply(s, w, i) { HolderKnowsBooking(s, w, i); }
  }

  lemma ReportStep(s: World, step: Step)
    requires ReportInv(s) && (step.Upload? ==> Numbered(step.parsed))
    ensures ReportInv(Apply(s, step)) && Extends(s, Apply(s, step))
  {
    StepKeeps(s, step);
    BulkKeysKept(s, step);
    var s' := Apply(s, step);
    forall v: nat, w: nat, i: nat | HoldsReply(s', v, i) && HoldsReply(s', w, i) ensures v == w {
      HoldersAgree(s, step, v, w, i);
    }
    forall w: nat, i: nat | HoldsReply(s', w, i) && i < |s'.t.rows| ensures s'.t.rows[i].status != RowSuccess {
      HolderNotSuccess(s, step, w, i);
    }
  }

  // ---------------------------------------------------------------- lost for good

  /** A booking exists under the row's key and the row will never say so. */
  ghost predicate Lost(s: World, i: nat) {
    && i < |s.t.rows| && KeyTaken(s.bookings, KeyOf(s.t.rows[i]))
    && (s.t.rows[i].status == RowFailed || Orphan(s, i))
  }

  lemma LostKept(s: World, step: Step, i: nat)
    requires ReportInv(s) && Lost(s, i) && (step.Upload? ==> Numbered(step.parsed))
    ensures Lost(Apply(s, step), i)
  {
    if s.t.rows[i].status == RowFailed {
      StepKeeps(s, step);
      KeyStaysTaken(s.bookings, Apply(s, step).bookings, KeyOf(s.t.rows[i]));
    } else {
      OrphanKept(s, step, i);
    }
  }

  lemma CommitTakesKey(s: World, w: nat, weather: Weather, i: nat)
    requires WorkersOk(s) && Commits(s, w, i)
    ensures KeyTaken(CommitStep(s, w, weather).bookings, KeyOf(s.t.rows[i])) && CommitStep(s, w, weather).t == s.t
  {
    assert WorkerOk(s, WorkerAt(s, w));
    assert CommitStep(s, w, weather).bookings[|s.bookings|].key == KeyOf(s.t.rows[i]);
  }

  /** Nobody holds a reply for a row whose key is free. */
  lemma NoHolderOfFreeKey(s: World, v: nat, i: nat)
    requires WorkersOk(s) && i < |s.t.rows| && !KeyTaken(s.bookings, KeyOf(s.t.rows[i]))
    ensures !HoldsReply(s, v, i)
  {
    if HoldsReply(s, v, i) { HolderKnowsBooking(s, v, i); }
  }

  lemma CommitLoses(s: World, w: nat, weather: Weather, i: nat)
    requires ReportInv(s) && Befalls(s, Commit(w, weather), i)
    ensures Lost(Apply(s, Commit(w, weather)), i)
  {
    var s' := Apply(s, Commit(w, weather));
    CommitTakesKey(s, w, weather, i);
    if s.t.rows[i].status == RowSuccess { SuccessHasKey(s, i); }
    if s.t.rows[i].status != RowFailed {
      forall v: nat ensures !HoldsReply(s', v, i) {
        NoHolderOfFreeKey(s, v, i);
      }
    }
  }

  /** Losing the one holder of a reply orphans the row. */
  lemma HolderLoses(s: World, step: Step, i: nat)
    requires ReportInv(s) && (step.Crash? || (step.Record? && !step.lands)) && HoldsReply(s, step.worker, i)
    ensures Lost(Apply(s, step), i)
  {
    HolderKnowsBooking(s, step.worker, i);
    assert WorkerOk(s, WorkerAt(s, step.worker));
    var s' := Apply(s, step);
    assert s'.t == s.t && s'.bookings == s.bookings;
    forall v: nat ensures !HoldsReply(s', v, i) {
      if HoldsReply(s', v, i) { ReplyComesFrom(s, step, v, i); }
    }
  }

  lemma BefallsLoses(s: World, step: Step, i: nat)
    requires ReportInv(s) && Befalls(s, step, i)
    ensures Lost(Apply(s, step), i)
  {
    match step
    case Commit(w, weather) => CommitLoses(s, w, weather, i);
    case Record(w, lands) => if !lands { HolderLoses(s, step, i); }
    case Crash(w) => HolderLoses(s, step, i);
  }

  // ---------------------------------------------------------------- accounted for

  /** If a booking exists under the row's key, the row says so or is about to. */
  ghost predicate Accounted(s: World, i: nat) {
    i < |s.t.rows| && KeyTaken(s.bookings, KeyOf(s.t.rows[i])) ==>
      s.t.rows[i].status == RowSuccess || (s.t.rows[i].status == RowPending && exists w: nat :: HoldsReply(s, w, i))
  }

  lemma NewRowAccounted(s: World, step: Step, i: nat)
    requires ReportInv(s) && Extends(s, Apply(s, step)) && |s.t.rows| <= i < |Apply(s, step).t.rows|
    ensures Accounted(Apply(s, step), i)
  {
    if !step.Upload? { RowCountKept(s, step); }
    NewRowsAreFree(s, step, i);
    QuietDesk(s, step);
  }

  lemma RowCountKept(s: World, step: Step)
    requires !step.Upload?
    ensures |Apply(s, step).t.rows| == |s.t.rows|
  {
  }

  lemma CommitAccounted(s: World, w: nat, weather: Weather, i: nat)
    requires ReportInv(s) && i < |s.t.rows| && Accounted(s, i) && !Befalls(s, Commit(w, weather), i)
    ensures Accounted(CommitStep(s, w, weather), i)
  {
    var pc, s' := WorkerAt(s, w), CommitStep(s, w, weather);
    assert WorkerOk(s, pc);
    var key := KeyOf(s.t.rows[i]);
    assert s'.t == s.t;
    if KeyTaken(s.bookings, key) {
      if s.t.rows[i].status != RowSuccess {
        var v: nat :| HoldsReply(s, v, i);
        assert HoldsReply(s', v, i);
      }
    } else if KeyTaken(s'.bookings, key) {
      var b :| 0 <= b < |s'.bookings| && s'.bookings[b].key == key;
      assert b == |s.bookings|;
      var row := HeadRow(s, pc);
      RowKeyInjective(row.job, row.number, s.t.rows[i].job, s.t.rows[i].number);
      SameRow(s, pc.todo[0], i);
      assert Commits(s, w, i);
      if s.t.rows[i].status == RowSuccess { SuccessHasKey(s, i); }
      assert HoldsReply(s', w, i);
    }
  }

  lemma SameRow(s: World, i: nat, k: nat)
    requires SheetOrder(s.t.rows) && i < |s.t.rows| && k < |s.t.rows|
    requires s.t.rows[i].job == s.t.rows[k].job && s.t.rows[i].number == s.t.rows[k].number
    ensures i == k
  {
  }

  lemma RecordAccounted(s: World, w: nat, lands: bool, i: nat)
    requires ReportInv(s) && i < |s.t.rows| && Accounted(s, i) && !Befalls(s, Record(w, lands), i)
    ensures Accounted(RecordStep(s, w, lands), i)
  {
    var pc, s' := WorkerAt(s, w), RecordStep(s, w, lands);
    assert WorkerOk(s, pc);
    assert s'.bookings == s.bookings;
    if KeyTaken(s.bookings, KeyOf(s.t.rows[i])) && s.t.rows[i].status != RowSuccess {
      var v: nat :| HoldsReply(s, v, i);
      if v != w {
        assert HoldsReply(s', v, i);
        assert !HoldsReply(s, w, i);
      }
    }
  }

  lemma OtherAccounted(s: World, step: Step, i: nat)
    requires ReportInv(s) && i < |s.t.rows| && Accounted(s, i) && !Befalls(s, step, i)
    requires !step.Commit? && !step.Record?
    ensures Accounted(Apply(s, step), i)
  {
    var s' := Apply(s, step);
    RowsQuiet(s, step);
    var key := KeyOf(s.t.rows[i]);
    if KeyTaken(s'.bookings, key) {
      SameImportKeys(s, step, key);
      if s.t.rows[i].status != RowSuccess {
        var v: nat :| HoldsReply(s, v, i);
        ReplySurvives(s, step, v, i);
      }
    }
  }

  lemma ReplySurvives(s: World, step: Step, v: nat, i: nat)
    requires HoldsReply(s, v, i) && !step.Commit? && !step.Record? && !(step.Crash? && step.worker == v)
    ensures HoldsReply(Apply(s, step), v, i)
  {
  }

  lemma AccountedKept(s: World, step: Step, i: nat)
    requires ReportInv(s) && Extends(s, Apply(s, step)) && Accounted(s, i) && !Befalls(s, step, i)
    ensures Accounted(Apply(s, step), i)
  {
    if i >= |s.t.rows| {
      if i < |Apply(s, step).t.rows| { NewRowAccounted(s, step, i); }
    } else if step.Commit? {
      CommitAccounted(s, step.worker, step.weather, i);
    } else if step.Record? {
      RecordAccounted(s, step.worker, step.lands, i);
    } else {
      OtherAccounted(s, step, i);
    }
  }

  // ---------------------------------------------------------------- whole runs

  lemma {:induction false} LostOrAccounted(s: World, steps: seq<Step>, i: nat)
    requires ReportInv(s) && Accounted(s, i) && Legal(steps)
    ensures ReportInv(Run(s, steps))
    ensures if Befell(s, steps, i) then Lost(Run(s, steps), i) else Accounted(Run(s, steps), i)
  {
    if steps != [] {
      var front, last := steps[..|steps| - 1], steps[|steps| - 1];
      LostOrAccounted(s, front, i);
      var m := Run(s, front);
      ReportStep(m, last);
      if Befell(s, front, i) {
        LostKept(m, last, i);
      } else if Befalls(m, last, i) {
        BefallsLoses(m, last, i);
      } else {
        AccountedKept(m, last, i);
      }
    }
  }

  lemma EmptyReport(capacity: map<Uuid, int>, i: nat)
    requires RoomToStart(capacity)
    ensures ReportInv(Empty(capacity)) && Accounted(Empty(capacity), i)
  {
    EmptyInv(capacity);
  }

  /** The report is wrong about a row exactly when one of those events befell it: over every
      legal run, a resolved row is marked failed while a booking exists under its key if and
      only if such an event occurred; otherwise it is successful exactly when one exists. */
  lemma {:induction false} WrongReportIff(capacity: map<Uuid, int>, steps: seq<Step>, i: nat)
    requires RoomToStart(capacity) && Legal(steps) && i < |Run(Empty(capacity), steps).t.rows|
    requires Run(Empty(capacity), steps).t.rows[i].status != RowPending
    ensures var s := Run(Empty(capacity), steps);
      && (s.t.rows[i].status == RowFailed && KeyTaken(s.bookings, KeyOf(s.t.rows[i]))
          <==> Befell(Empty(capacity), steps, i))
      && ((s.t.rows[i].status == RowSuccess <==> KeyTaken(s.bookings, KeyOf(s.t.rows[i])))
          <==> !Befell(Empty(capacity), steps, i))
  {
    EmptyReport(capacity, i);
    LostOrAccounted(Empty(capacity), steps, i);
    var s := Run(Empty(capacity), steps);
    if s.t.rows[i].status == RowSuccess { SuccessHasKey(s, i); }
  }

  lemma {:induction false} BefellStays(s: World, steps: seq<Step>, after: seq<Step>, i: nat)
    requires Befell(s, steps, i)
    ensures Befell(s, steps + after, i)
  {
    if after == [] {
      assert steps + after == steps;
    } else {
      BefellStays(s, steps, after[..|after| - 1], i);
      assert (steps + after)[..|steps + after| - 1] == steps + after[..|after| - 1];
    }
  }

  /** The restart promise fails: once such an event has befallen a row, then in no continuation,
      however often the job is re-driven, is the row successful, although its booking exists. */
  lemma RedriveNeverRecovers(capacity: map<Uuid, int>, steps: seq<Step>, after: seq<Step>, i: nat)
    requires RoomToStart(capacity) && Legal(steps + after) && Befell(Empty(capacity), steps, i)
    ensures var s := Run(Empty(capacity), steps + after);
      i < |s.t.rows| && s.t.rows[i].status != RowSuccess && KeyTaken(s.bookings, KeyOf(s.t.rows[i]))
  {
    EmptyReport(capacity, i);
    BefellStays(Empty(capacity), steps, after, i);
    LostOrAccounted(Empty(capacity), steps + after, i);
  }
}
