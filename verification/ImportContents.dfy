/** What an import writes: every line of the sheet becomes a row with the line's own contents, and
    what is booked for a row is what its line and its job asked for. */
module ImportContents {
  import opened Common
  import opened ImportTables
  import opened WalkInDesk
  import opened ImportProtocol
  import opened ImportTheorems
  import opened ImportTruth

  // ---------------------------------------------------------------- the upload

  /** The row of a line carries its number, guest and quantity; it waits exactly when the line is
      usable, and otherwise has failed with the parser's words. */
  lemma UploadedRow(s: World, id: Uuid, event: Uuid, occurrence: int, parsed: seq<ParsedRow>, i: nat)
    requires id !in s.t.jobs && i < |parsed|
    ensures var t, n, p := Apply(s, Upload(id, event, occurrence, parsed)).t, |s.t.rows|, parsed[i];
      && |t.rows| == n + |parsed|
      && t.rows[n + i].job == id && t.rows[n + i].number == p.number
      && t.rows[n + i].guest == p.guest && t.rows[n + i].quantity == p.quantity
      && (if p.err == "" then t.rows[n + i].status == RowPending && t.rows[n + i].error == None
          else t.rows[n + i].status == RowFailed && t.rows[n + i].error == Some(p.err))
      && id in t.jobs && t.jobs[id].event == event && t.jobs[id].occurrence == occurrence
      && t.jobs[id].status == JobPending && t.jobs[id].total == |parsed|
  {
  }

  /** A job keeps its event and occurrence. */
  lemma SlotKept(s: World, step: Step, job: Uuid)
    requires job in s.t.jobs
    ensures var t := Apply(s, step).t;
      job in t.jobs && t.jobs[job].event == s.t.jobs[job].event && t.jobs[job].occurrence == s.t.jobs[job].occurrence
  {
  }

  lemma {:induction false} SlotStays(s: World, steps: seq<Step>, job: Uuid)
    requires job in s.t.jobs
    ensures var t := Run(s, steps).t;
      job in t.jobs && t.jobs[job].event == s.t.jobs[job].event && t.jobs[job].occurrence == s.t.jobs[job].occurrence
  {
    if steps != [] {
      SlotStays(s, steps[..|steps| - 1], job);
      SlotKept(Run(s, steps[..|steps| - 1]), steps[|steps| - 1], job);
    }
  }

  // ---------------------------------------------------------------- what is booked

  /** A booking under the row's key is for the row's guest and quantity, at the job's slot. */
  ghost predicate BookedAsAsked(s: World, b: nat, i: nat)
    requires b < |s.bookings| && i < |s.t.rows|
  {
    var row, booking := s.t.rows[i], s.bookings[b];
    booking.key == RowKey(row.job, row.number) ==>
      && row.job in s.t.jobs && booking.guest == row.guest && booking.quantity == row.quantity
      && booking.event == s.t.jobs[row.job].event && booking.occurrence == s.t.jobs[row.job].occurrence
  }

  ghost predicate AllBookedAsAsked(s: World) {
    forall b: nat, i: nat :: b < |s.bookings| && i < |s.t.rows| ==> BookedAsAsked(s, b, i)
  }

  ghost predicate ContentInv(s: World) {
    Inv(s) && BulkKeysHaveRows(s) && AllBookedAsAsked(s)
  }

  /** An earlier booking keeps everything but its being active. */
  lemma BookingKept(s: World, step: Step, b: nat)
    requires b < |s.bookings| && b < |Apply(s, step).bookings|
    ensures Apply(s, step).bookings[b] == s.bookings[b].(active := Apply(s, step).bookings[b].active)
  {
    if !step.Commit? && !step.Cancel? && !step.OtherBooking? { QuietDesk(s, step); }
  }

  lemma EarlierAsAsked(s: World, step: Step, b: nat, i: nat)
    requires ContentInv(s) && Extends(s, Apply(s, step))
    requires b < |s.bookings| && i < |Apply(s, step).t.rows|
    ensures BookedAsAsked(Apply(s, step), b, i)
  {
    var s' := Apply(s, step);
    BookingKept(s, step, b);
    if i < |s.t.rows| {
      assert BookedAsAsked(s, b, i);
      if s.t.rows[i].job in s.t.jobs { SlotKept(s, step, s.t.rows[i].job); }
    } else if s.bookings[b].key == KeyOf(s'.t.rows[i]) {
      if !step.Upload? { SameLength(s, step); }
      NewRowsAreFree(s, step, i);
    }
  }

  lemma SameLength(s: World, step: Step)
    requires !step.Upload?
    ensures |Apply(s, step).t.rows| == |s.t.rows|
  {
  }

  /** A new booking is of another desk, or for the row in hand. */
  lemma NewBookingComesFrom(s: World, step: Step)
    requires Inv(s) && |Apply(s, step).bookings| > |s.bookings|
    ensures |Apply(s, step).bookings| == |s.bookings| + 1
    ensures var b := Apply(s, step).bookings[|s.bookings|];
      || (step.OtherBooking? && !IsBulkKey(b.key))
      || (step.Commit? && Apply(s, step).t == s.t
          && var pc := WorkerAt(s, step.worker);
             pc.Cleared? && HasHead(s, pc)
             && var row := s.t.rows[pc.todo[0]];
                row.job == pc.job
                && b == Booking(RowKey(row.job, row.number), row.guest, s.t.jobs[row.job].event,
                                s.t.jobs[row.job].occurrence, row.quantity, true))
  {
    if step.Commit? {
      assert WorkerOk(s, WorkerAt(s, step.worker));
    } else if !step.Cancel? && !step.OtherBooking? {
      QuietDesk(s, step);
    }
  }

  lemma NewAsAsked(s: World, step: Step, i: nat)
    requires ContentInv(s) && |Apply(s, step).bookings| > |s.bookings| && i < |Apply(s, step).t.rows|
    ensures BookedAsAsked(Apply(s, step), |s.bookings|, i)
  {
    NewBookingComesFrom(s, step);
    var s' := Apply(s, step);
    if step.Commit? && s'.bookings[|s.bookings|].key == KeyOf(s'.t.rows[i]) {
      var row := s.t.rows[WorkerAt(s, step.worker).todo[0]];
      RowKeyInjective(row.job, row.number, s.t.rows[i].job, s.t.rows[i].number);
    }
  }

  lemma StepContents(s: World, step: Step)
    requires ContentInv(s) && (step.Upload? ==> Numbered(step.parsed))
    ensures ContentInv(Apply(s, step))
  {
    StepKeeps(s, step);
    BulkKeysKept(s, step);
    var s' := Apply(s, step);
    forall b: nat, i: nat | b < |s'.bookings| && i < |s'.t.rows| ensures BookedAsAsked(s', b, i) {
      if b < |s.bookings| {
        EarlierAsAsked(s, step, b, i);
      } else {
        NewBookingComesFrom(s, step);
        NewAsAsked(s, step, i);
      }
    }
  }

  lemma {:induction false} RunContents(s: World, steps: seq<Step>)
    requires ContentInv(s) && Legal(steps)
    ensures ContentInv(Run(s, steps))
  {
    if steps != [] {
      RunContents(s, steps[..|steps| - 1]);
      StepContents(Run(s, steps[..|steps| - 1]), steps[|steps| - 1]);
    }
  }

  /** From the sheet to the seat: whatever happened before the upload and whatever follows it,
      the row of a line holds the line's number, guest and quantity, an unusable line stays
      failed with the parser's words, and any booking made under the row's key is for that
      guest and that many seats, at the event and occurrence the job was uploaded for. */
  lemma {:induction false} SheetToSeat(capacity: map<Uuid, int>, before: seq<Step>, id: Uuid, event: Uuid,
        occurrence: int, parsed: seq<ParsedRow>, after: seq<Step>, i: nat, b: nat)
    requires RoomToStart(capacity) && Legal(before + [Upload(id, event, occurrence, parsed)]) && Legal(after)
    requires id !in Run(Empty(capacity), before).t.jobs && i < |parsed|
    ensures var n := |Run(Empty(capacity), before).t.rows|;
      var e := Run(Empty(capacity), before + [Upload(id, event, occurrence, parsed)] + after);
      && n + i < |e.t.rows|
      && e.t.rows[n + i].job == id && e.t.rows[n + i].number == parsed[i].number
      && e.t.rows[n + i].guest == parsed[i].guest && e.t.rows[n + i].quantity == parsed[i].quantity
      && (parsed[i].err != "" ==> e.t.rows[n + i].status == RowFailed && e.t.rows[n + i].error == Some(parsed[i].err))
      && (b < |e.bookings| && e.bookings[b].key == RowKey(id, parsed[i].number) ==>
            && e.bookings[b].guest == parsed[i].guest && e.bookings[b].quantity == parsed[i].quantity
            && e.bookings[b].event == event && e.bookings[b].occurrence == occurrence)
  {
    var first := before + [Upload(id, event, occurrence, parsed)];
    var s, u := Run(Empty(capacity), before), Run(Empty(capacity), first);
    Snoc(Empty(capacity), before, Upload(id, event, occurrence, parsed));
    UploadedRow(s, id, event, occurrence, parsed, i);
    EmptyInv(capacity);
    RunContents(Empty(capacity), first);
    RunInv(u, after);
    RunContents(u, after);
    RunConcat(Empty(capacity), first, after);
    SlotStays(u, after, id);
    var e := Run(u, after);
    if b < |e.bookings| { assert BookedAsAsked(e, b, |s.t.rows| + i); }
  }

  // ---------------------------------------------------------------- unusable lines

  /** Row `i` has failed, nobody has it on a list and nothing is booked for it. */
  ghost predicate OutOfHand(s: World, i: nat) {
    && i < |s.t.rows| && s.t.rows[i].status == RowFailed && !KeyTaken(s.bookings, KeyOf(s.t.rows[i]))
    && forall w: nat :: NotListed(WorkerAt(s, w), i)
  }

  ghost predicate NotListed(pc: Pc, i: nat) {
    pc.Walking? || pc.Cleared? || pc.Recording? ==> i !in pc.todo
  }

  lemma ListsKeepOut(s: World, step: Step, i: nat, w: nat)
    requires SheetOrder(s.t.rows) && i < |s.t.rows| && s.t.rows[i].status == RowFailed
    requires NotListed(WorkerAt(s, w), i)
    ensures NotListed(WorkerAt(Apply(s, step), w), i)
  {
    if step.List? && step.worker == w && WorkerAt(s, w).Loading? {
      PendingOfSound(s.t.rows, WorkerAt(s, w).job);
    }
  }

  lemma KeyStaysFree(s: World, step: Step, i: nat)
    requires Inv(s) && OutOfHand(s, i)
    ensures !KeyTaken(Apply(s, step).bookings, KeyOf(s.t.rows[i]))
  {
    var s' := Apply(s, step);
    if !step.Commit? {
      if KeyTaken(s'.bookings, KeyOf(s.t.rows[i])) { SameImportKeys(s, step, KeyOf(s.t.rows[i])); }
    } else if |s'.bookings| > |s.bookings| {
      NewBookingComesFrom(s, step);
      var pc := WorkerAt(s, step.worker);
      assert NotListed(pc, i) && pc.todo[0] in pc.todo;
      var row := s.t.rows[pc.todo[0]];
      if KeyOf(row) == KeyOf(s.t.rows[i]) {
        RowKeyInjective(row.job, row.number, s.t.rows[i].job, s.t.rows[i].number);
      }
      forall b | 0 <= b < |s'.bookings| ensures s'.bookings[b].key != KeyOf(s.t.rows[i]) {
        if b < |s.bookings| { BookingKept(s, step, b); }
      }
    }
  }

  lemma OutOfHandKept(s: World, step: Step, i: nat)
    requires Inv(s) && OutOfHand(s, i) && Extends(s, Apply(s, step))
    ensures OutOfHand(Apply(s, step), i)
  {
    KeyStaysFree(s, step, i);
    forall w: nat ensures NotListed(WorkerAt(Apply(s, step), w), i) {
      assert NotListed(WorkerAt(s, w), i);
      ListsKeepOut(s, step, i, w);
    }
  }

  lemma {:induction false} OutOfHandStays(s: World, steps: seq<Step>, i: nat)
    requires Inv(s) && OutOfHand(s, i) && Legal(steps)
    ensures OutOfHand(Run(s, steps), i)
  {
    if steps != [] {
      OutOfHandStays(s, steps[..|steps| - 1], i);
      RunInv(s, steps[..|steps| - 1]);
      var m := Run(s, steps[..|steps| - 1]);
      StepKeeps(m, steps[|steps| - 1]);
      OutOfHandKept(m, steps[|steps| - 1], i);
    }
  }

  lemma UploadedOutOfHand(s: World, id: Uuid, event: Uuid, occurrence: int, parsed: seq<ParsedRow>, i: nat)
    requires ContentInv(s) && Numbered(parsed) && id !in s.t.jobs && i < |parsed| && parsed[i].err != ""
    ensures OutOfHand(Apply(s, Upload(id, event, occurrence, parsed)), |s.t.rows| + i)
  {
    var step, n := Upload(id, event, occurrence, parsed), |s.t.rows| + i;
    UploadedRow(s, id, event, occurrence, parsed, i);
    StepKeeps(s, step);
    NewRowsAreFree(s, step, n);
    QuietDesk(s, step);
    var u := Apply(s, step);
    forall w: nat ensures NotListed(WorkerAt(u, w), n) {
      assert WorkerOk(s, WorkerAt(s, w)) && WorkerAt(u, w) == WorkerAt(s, w);
    }
  }

  /** A line the parser could not use is never booked, in no continuation. */
  lemma {:induction false} UnusableNeverBooked(capacity: map<Uuid, int>, before: seq<Step>, id: Uuid, event: Uuid,
        occurrence: int, parsed: seq<ParsedRow>, after: seq<Step>, i: nat)
    requires RoomToStart(capacity) && Legal(before + [Upload(id, event, occurrence, parsed)]) && Legal(after)
    requires id !in Run(Empty(capacity), before).t.jobs && i < |parsed| && parsed[i].err != ""
    ensures var e := Run(Empty(capacity), before + [Upload(id, event, occurrence, parsed)] + after);
      !KeyTaken(e.bookings, RowKey(id, parsed[i].number))
  {
    var step := Upload(id, event, occurrence, parsed);
    var first := before + [step];
    var s, u := Run(Empty(capacity), before), Run(Empty(capacity), first);
    Snoc(Empty(capacity), before, step);
    assert Legal(before) by {
      assert forall k :: 0 <= k < |before| ==> first[k] == before[k];
    }
    EmptyInv(capacity);
    RunContents(Empty(capacity), before);
    assert first[|before|] == step;
    UploadedOutOfHand(s, id, event, occurrence, parsed, i);
    UploadedRow(s, id, event, occurrence, parsed, i);
    StepKeeps(s, step);
    var n := |s.t.rows| + i;
    OutOfHandStays(u, after, n);
    RunInv(u, after);
    RunConcat(Empty(capacity), first, after);
  }

  // ---------------------------------------------------------------- other desks

  /** Every booking another desk makes under a key that is not an import's goes through exactly
      when its seats are there and its key is new. */
  lemma OtherDeskBooks(s: World, b: Booking)
    requires |b.key| < 12 || b.key[..12] != "bulk_import_"
    ensures var fits := b.event in s.capacity
        && Seats(s.bookings, b.event, b.occurrence) + b.quantity <= s.capacity[b.event];
      Apply(s, OtherBooking(b)).bookings
        == if fits && !KeyTaken(s.bookings, b.key) then s.bookings + [b] else s.bookings
  {
  }

  // ---------------------------------------------------------------- what the statuses say

  /** Starting a walk marks the job processing, an unreadable list marks it failed with a reason,
      and reaching the end marks it completed; the last two stamp the time. */
  lemma StatusSteps(s: World, w: nat, job: Uuid)
    requires job in s.t.jobs
    ensures WorkerAt(s, w).Idle? ==>
      var t := Apply(s, Start(w, job)).t;
      t.jobs == s.t.jobs[job := s.t.jobs[job].(status := JobProcessing, error := None, updatedAt := s.now)]
    ensures WorkerAt(s, w) == Loading(job) ==>
      var t := Apply(s, ListFails(w)).t;
      t.jobs == s.t.jobs[job := s.t.jobs[job].(status := JobFailed, error := Some("could not read import rows"),
                                               updatedAt := s.now, completedAt := Some(s.now))]
    ensures WorkerAt(s, w).Walking? && WorkerAt(s, w).job == job && WorkerAt(s, w).todo == [] ==>
      var t := Apply(s, Finish(w, true)).t;
      t.jobs == s.t.jobs[job := s.t.jobs[job].(status := JobCompleted, error := None,
                                               updatedAt := s.now, completedAt := Some(s.now))]
  {
  }
}
