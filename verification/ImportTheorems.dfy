/** What holds of every run of the import protocol. */
module ImportTheorems {
  import opened Common
  import opened ImportTables
  import opened WalkInDesk
  import opened ImportProtocol

  lemma {:induction false} RunInv(s: World, steps: seq<Step>)
    requires Inv(s) && Legal(steps)
    ensures Inv(Run(s, steps)) && Extends(s, Run(s, steps))
  {
    if steps != [] {
      var front := steps[..|steps| - 1];
      RunInv(s, front);
      StepKeeps(Run(s, front), steps[|steps| - 1]);
      ExtendsTransitive(s, Run(s, front), Run(s, steps));
    }
  }

  lemma EmptyInv(capacity: map<Uuid, int>)
    requires RoomToStart(capacity)
    ensures Inv(Empty(capacity))
  {
  }

  lemma {:induction false} RunConcat(s: World, a: seq<Step>, b: seq<Step>)
    ensures Run(s, a + b) == Run(Run(s, a), b)
  {
    if b == [] {
      assert a + b == a;
    } else {
      RunConcat(s, a, b[..|b| - 1]);
      assert (a + b)[..|a + b| - 1] == a + b[..|b| - 1];
    }
  }

  lemma Snoc(s: World, steps: seq<Step>, x: Step)
    ensures Run(s, steps + [x]) == Apply(Run(s, steps), x)
  {
    assert (steps + [x])[..|steps|] == steps;
  }

  /** The two states of a run that continues, with everything known about them. */
  lemma {:induction false} RunOn(capacity: map<Uuid, int>, before: seq<Step>, after: seq<Step>)
    requires RoomToStart(capacity) && Legal(before + after)
    ensures Inv(Run(Empty(capacity), before))
    ensures Inv(Run(Empty(capacity), before + after))
    ensures Extends(Run(Empty(capacity), before), Run(Empty(capacity), before + after))
  {
    assert Legal(before) by {
      assert forall i :: 0 <= i < |before| ==> (before + after)[i] == before[i];
    }
    assert Legal(after) by {
      assert forall i :: 0 <= i < |after| ==> (before + after)[|before| + i] == after[i];
    }
    EmptyInv(capacity);
    RunInv(Empty(capacity), before);
    RunInv(Run(Empty(capacity), before), after);
    RunConcat(Empty(capacity), before, after);
  }

  // ---------------------------------------------------------------- counters

  /** In every reachable state a job's counters are the numbers of its rows. */
  lemma {:induction false} CountersNeverDisagree(capacity: map<Uuid, int>, steps: seq<Step>, id: Uuid)
    requires RoomToStart(capacity) && Legal(steps)
    requires id in Run(Empty(capacity), steps).t.jobs
    ensures var t := Run(Empty(capacity), steps).t;
      && t.jobs[id].total == CountJob(t.rows, id)
      && t.jobs[id].success == CountStatus(t.rows, id, RowSuccess)
      && t.jobs[id].failed == CountStatus(t.rows, id, RowFailed)
      && t.jobs[id].processed == t.jobs[id].success + t.jobs[id].failed
      && t.jobs[id].processed == t.jobs[id].total - CountStatus(t.rows, id, RowPending)
  {
    EmptyInv(capacity);
    RunInv(Empty(capacity), steps);
    var t := Run(Empty(capacity), steps).t;
    assert CountersAgree(t, id);
    CountsPartition(t.rows, id);
  }

  /** A resolved row never changes again, whatever happens next. */
  lemma ResolvedRowsFrozen(capacity: map<Uuid, int>, before: seq<Step>, after: seq<Step>, i: nat)
    requires RoomToStart(capacity) && Legal(before + after)
    requires i < |Run(Empty(capacity), before).t.rows|
    requires Run(Empty(capacity), before).t.rows[i].status != RowPending
    ensures i < |Run(Empty(capacity), before + after).t.rows|
    ensures Run(Empty(capacity), before + after).t.rows[i] == Run(Empty(capacity), before).t.rows[i]
  {
    RunOn(capacity, before, after);
  }

  /** Extending the tables never adds pending rows to an existing job. */
  lemma PendingShrinks(t: Tables, s: Tables, job: Uuid)
    requires RowsExtend(t, s) && job in t.jobs
    ensures CountStatus(s.rows, job, RowPending) <= CountStatus(t.rows, job, RowPending)
  {
    var n := |t.rows|;
    assert s.rows == s.rows[..n] + s.rows[n..];
    CountConcat(s.rows[..n], s.rows[n..], job, RowPending);
    NoRowsCount(s.rows[n..], job);
    SumMonotone(StatusColumn(s.rows[..n], job, RowPending), StatusColumn(t.rows, job, RowPending));
  }

  /** The number of pending rows of a job never rises, so it bounds every re-drive. */
  lemma PendingNeverRises(capacity: map<Uuid, int>, before: seq<Step>, after: seq<Step>, job: Uuid)
    requires RoomToStart(capacity) && Legal(before + after)
    requires job in Run(Empty(capacity), before).t.jobs
    ensures CountStatus(Run(Empty(capacity), before + after).t.rows, job, RowPending)
         <= CountStatus(Run(Empty(capacity), before).t.rows, job, RowPending)
  {
    RunOn(capacity, before, after);
    PendingShrinks(Run(Empty(capacity), before).t, Run(Empty(capacity), before + after).t, job);
  }

  /** A landing result write on a pending row takes exactly one row off the measure. */
  lemma LandingResolvesOne(s: World, w: nat)
    requires Inv(s) && WorkerAt(s, w).Recording? && HasHead(s, WorkerAt(s, w))
    requires HeadRow(s, WorkerAt(s, w)).status == RowPending
    ensures CountStatus(Apply(s, Record(w, true)).t.rows, WorkerAt(s, w).job, RowPending)
         == CountStatus(s.t.rows, WorkerAt(s, w).job, RowPending) - 1
  {
    var pc := WorkerAt(s, w);
    assert WorkerOk(s, pc);
    var row := HeadRow(s, pc);
    CountUpdate(s.t.rows, pc.todo[0], Resolve(row, pc.result), pc.job, RowPending);
  }

  ghost predicate JobFrozen(t: Tables, s: Tables, job: Uuid)
    requires job in t.jobs && job in s.jobs
  {
    && |t.rows| <= |s.rows|
    && (forall i :: 0 <= i < |t.rows| && t.rows[i].job == job ==> s.rows[i] == t.rows[i])
    && (forall i :: |t.rows| <= i < |s.rows| ==> s.rows[i].job != job)
    && s.jobs[job].total == t.jobs[job].total && s.jobs[job].processed == t.jobs[job].processed
    && s.jobs[job].success == t.jobs[job].success && s.jobs[job].failed == t.jobs[job].failed
  }

  lemma SettledCounts(t: Tables, s: Tables, job: Uuid, st: RowStatus)
    requires RowsExtend(t, s) && job in t.jobs
    requires CountStatus(t.rows, job, RowPending) == 0
    ensures CountStatus(s.rows, job, st) == CountStatus(t.rows, job, st)
      && CountJob(s.rows, job) == CountJob(t.rows, job)
    ensures forall i :: 0 <= i < |t.rows| && t.rows[i].job == job ==> s.rows[i] == t.rows[i]
  {
    CountNonNegative(t.rows, job, RowPending);
    var n := |t.rows|;
    assert s.rows == s.rows[..n] + s.rows[n..];
    NoRowsCount(s.rows[n..], job);
    CountConcat(s.rows[..n], s.rows[n..], job, st);
    assert StatusColumn(s.rows[..n], job, st) == StatusColumn(t.rows, job, st);
    assert JobColumn(s.rows[..n], job) == JobColumn(t.rows, job);
  }

  /** Once nothing is pending, re-driving a job changes none of its rows and no counter. */
  lemma {:induction false} FinishedJobFrozen(capacity: map<Uuid, int>, before: seq<Step>, after: seq<Step>, job: Uuid)
    requires RoomToStart(capacity) && Legal(before + after)
    requires job in Run(Empty(capacity), before).t.jobs
    requires CountStatus(Run(Empty(capacity), before).t.rows, job, RowPending) == 0
    ensures job in Run(Empty(capacity), before + after).t.jobs
    ensures JobFrozen(Run(Empty(capacity), before).t, Run(Empty(capacity), before + after).t, job)
  {
    RunOn(capacity, before, after);
    var t, s := Run(Empty(capacity), before).t, Run(Empty(capacity), before + after).t;
    SettledCounts(t, s, job, RowSuccess);
    SettledCounts(t, s, job, RowFailed);
    assert CountersAgree(t, job) && CountersAgree(s, job);
  }

  // ---------------------------------------------------------------- completion

  lemma NothingPending(rows: seq<Row>, job: Uuid)
    requires forall i: nat :: !IsPending(rows, job, i)
    ensures CountStatus(rows, job, RowPending) == 0
  {
    forall i | 0 <= i < |rows| ensures StatusColumn(rows, job, RowPending)[i] == 0 {
      assert !IsPending(rows, job, i);
    }
    SumZero(StatusColumn(rows, job, RowPending));
  }

  lemma EndOfWalk(s: World, w: nat)
    requires WorkersOk(s) && SheetOrder(s.t.rows)
    requires WorkerAt(s, w).Walking? && WorkerAt(s, w).todo == []
    ensures WorkerAt(s, w).job in s.t.jobs
    ensures forall i: nat :: IsPending(s.t.rows, WorkerAt(s, w).job, i) ==> i in WorkerAt(s, w).lost
    ensures WorkerAt(s, w).lost == {} ==> CountStatus(s.t.rows, WorkerAt(s, w).job, RowPending) == 0
  {
    var pc := WorkerAt(s, w);
    assert WorkerOk(s, pc);
    if pc.lost == {} {
      assert forall i: nat :: !IsPending(s.t.rows, pc.job, i);
      NothingPending(s.t.rows, pc.job);
    }
  }

  /** When a worker marks a job completed, whatever other workers did, the only rows
      still pending are those whose result write that worker lost. */
  lemma {:induction false} CompletedMeansNothingPending(capacity: map<Uuid, int>, steps: seq<Step>, w: nat)
    requires RoomToStart(capacity) && Legal(steps)
    requires WorkerAt(Run(Empty(capacity), steps), w).Walking?
    requires WorkerAt(Run(Empty(capacity), steps), w).todo == []
    ensures var s, s' := Run(Empty(capacity), steps), Run(Empty(capacity), steps + [Finish(w, true)]);
      var pc := WorkerAt(s, w);
      && pc.job in s'.t.jobs && s'.t.jobs[pc.job].status == JobCompleted
      && (forall i: nat :: IsPending(s'.t.rows, pc.job, i) ==> i in pc.lost)
      && (pc.lost == {} ==> CountStatus(s'.t.rows, pc.job, RowPending) == 0)
  {
    EmptyInv(capacity);
    RunInv(Empty(capacity), steps);
    EndOfWalk(Run(Empty(capacity), steps), w);
    assert (steps + [Finish(w, true)])[..|steps|] == steps;
  }

  // ---------------------------------------------------------------- bookings

  /** At most one booking per (job, row number), and no slot is ever overbooked. */
  lemma OneBookingPerRow(capacity: map<Uuid, int>, steps: seq<Step>)
    requires RoomToStart(capacity) && Legal(steps)
    ensures var b := Run(Empty(capacity), steps).bookings;
      && (forall i, k, job: Uuid, n: nat ::
            0 <= i < |b| && 0 <= k < |b| && b[i].key == RowKey(job, n) && b[k].key == RowKey(job, n) ==> i == k)
      && (forall e, o | e in capacity :: Seats(b, e, o) <= capacity[e])
  {
    EmptyInv(capacity);
    RunInv(Empty(capacity), steps);
  }

  /** Every successful row carries the booking made under its own key, so two successful
      rows never share one. */
  lemma {:induction false} SuccessOwnsItsBooking(capacity: map<Uuid, int>, steps: seq<Step>, i: nat, k: nat)
    requires RoomToStart(capacity) && Legal(steps)
    requires i < |Run(Empty(capacity), steps).t.rows| && k < |Run(Empty(capacity), steps).t.rows|
    requires Run(Empty(capacity), steps).t.rows[i].status == RowSuccess
    requires Run(Empty(capacity), steps).t.rows[k].status == RowSuccess
    ensures var s := Run(Empty(capacity), steps);
      && Owns(s.bookings, s.t.rows[i])
      && (s.t.rows[i].booking == s.t.rows[k].booking ==> i == k)
  {
    EmptyInv(capacity);
    RunInv(Empty(capacity), steps);
    var s := Run(Empty(capacity), steps);
    assert Owns(s.bookings, s.t.rows[i]) && Owns(s.bookings, s.t.rows[k]);
    if s.t.rows[i].booking == s.t.rows[k].booking {
      RowKeyInjective(s.t.rows[i].job, s.t.rows[i].number, s.t.rows[k].job, s.t.rows[k].number);
    }
  }
}
