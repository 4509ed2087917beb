/** The booking side of an import: what InitiateWalkIn and CreateBooking do with
    one row on the zero-cost path. */
module WalkInDesk {
  import opened Common
  import opened ImportTables

  /** A guest account is found by phone, so the phone stands for the account. */
  datatype Booking = Booking(
    key: string, guest: string, event: Uuid, occurrence: int, quantity: nat, active: bool)

  /** The circumstances of one attempt that the tables do not decide. */
  datatype Weather =
    | Clear
    | Refused(message: string)     // any error return that writes nothing
    | Charged                      // the event turned paid: an order instead of a booking
    | PanicBefore                  // a panic with nothing committed
    | LostReply(message: string)   // the commit lands, the caller sees an error
    | PanicAfter                   // the commit lands, then something panics

  const BULK_PREFIX := "bulk_import_"
  const DUPLICATE := "this guest already has a booking for this slot"
  const NO_SEATS := "no seats left for this slot"
  const CHANGED := "this experience changed while importing"
  const PANICKED := "an unexpected error occurred booking this guest"
  const KEY_TAKEN := "failed to create booking"

  function RowKey(job: Uuid, number: nat): string {
    BULK_PREFIX + job + "_" + PadDec(number, 1)
  }

  predicate IsBulkKey(key: string) {
    |BULK_PREFIX| <= |key| && key[..|BULK_PREFIX|] == BULK_PREFIX
  }

  /** Two rows share an idempotency key only if they are the same row of the same job. */
  lemma RowKeyInjective(j1: Uuid, n1: nat, j2: Uuid, n2: nat)
    requires RowKey(j1, n1) == RowKey(j2, n2)
    ensures j1 == j2 && n1 == n2
  {
    var k1, k2 := RowKey(j1, n1), RowKey(j2, n2);
    assert j1 == k1[12..48] == k2[12..48] == j2;
    assert PadDec(n1, 1) == k1[49..] == k2[49..] == PadDec(n2, 1);
    DecInjective(n1, n2, 1);
  }

  predicate KeyTaken(bookings: seq<Booking>, key: string) {
    exists i :: 0 <= i < |bookings| && bookings[i].key == key
  }

  /** The duplicate guard: does the guest hold an active booking for the slot? */
  predicate HoldsSlot(bookings: seq<Booking>, guest: string, event: Uuid, occurrence: int) {
    exists i :: 0 <= i < |bookings| && bookings[i].active && bookings[i].guest == guest
             && bookings[i].event == event && bookings[i].occurrence == occurrence
  }

  function SeatColumn(bookings: seq<Booking>, event: Uuid, occurrence: int): seq<int> {
    seq(|bookings|, i requires 0 <= i < |bookings| =>
      if bookings[i].active && bookings[i].event == event && bookings[i].occurrence == occurrence
      then bookings[i].quantity else 0)
  }

  /** Seats held on a slot. */
  function Seats(bookings: seq<Booking>, event: Uuid, occurrence: int): int {
    Sum(SeatColumn(bookings, event, occurrence))
  }

  predicate Fits(bookings: seq<Booking>, capacity: map<Uuid, int>, event: Uuid, occurrence: int, quantity: nat) {
    event in capacity && Seats(bookings, event, occurrence) + quantity <= capacity[event]
  }

  /** The checks before the booking transaction opens; None lets the attempt go on. */
  function Precheck(bookings: seq<Booking>, capacity: map<Uuid, int>, job: Job, row: Row,
                    w: Weather): Option<RowResult>
  {
    match w
    case PanicBefore => Some(NotBooked(PANICKED))
    case Refused(m) => Some(NotBooked(m))
    case _ =>
      if HoldsSlot(bookings, row.guest, job.event, job.occurrence) then Some(NotBooked(DUPLICATE))
      else if !Fits(bookings, capacity, job.event, job.occurrence, row.quantity) then Some(NotBooked(NO_SEATS))
      else if w == Charged then Some(NotBooked(CHANGED))
      else None
  }

  function NewBooking(job: Job, row: Row): Booking {
    Booking(RowKey(row.job, row.number), row.guest, job.event, job.occurrence, row.quantity, true)
  }

  /** The booking transaction: seats re-counted under the event lock, then an insert
      that the unique key index may reject. */
  function Insert(bookings: seq<Booking>, capacity: map<Uuid, int>, b: Booking): Option<seq<Booking>> {
    if Fits(bookings, capacity, b.event, b.occurrence, b.quantity) && !KeyTaken(bookings, b.key)
    then Some(bookings + [b]) else None
  }

  predicate LosesReply(w: Weather) {
    w.LostReply? || w.PanicAfter?
  }

  /** What the worker is told about a committed booking. */
  function Reply(w: Weather, id: nat): RowResult {
    match w
    case LostReply(m) => NotBooked(m)
    case PanicAfter => NotBooked(PANICKED)
    case _ => Booked(id)
  }

  function Commit(bookings: seq<Booking>, capacity: map<Uuid, int>, job: Job, row: Row,
                  w: Weather): (seq<Booking>, RowResult)
  {
    match Insert(bookings, capacity, NewBooking(job, row))
    case Some(after) => (after, Reply(w, |bookings|))
    case None =>
      var fits := Fits(bookings, capacity, job.event, job.occurrence, row.quantity);
      (bookings, NotBooked(if fits then KEY_TAKEN else NO_SEATS))
  }

  /** One uninterrupted attempt. */
  function Attempt(bookings: seq<Booking>, capacity: map<Uuid, int>, job: Job, row: Row,
                   w: Weather): (seq<Booking>, RowResult)
  {
    match Precheck(bookings, capacity, job, row, w)
    case Some(r) => (bookings, r)
    case None => Commit(bookings, capacity, job, row, w)
  }

  // ---------------------------------------------------------------- what replaying a key really does

  /** The source expects a replayed key to return the booking it made before. It never
      does: a zero-cost booking writes no ledger row, so the replay is refused. */
  lemma ReplayIsRefused(bookings: seq<Booking>, capacity: map<Uuid, int>, job: Job, row: Row, w: Weather)
    requires KeyTaken(bookings, RowKey(row.job, row.number))
    ensures Attempt(bookings, capacity, job, row, w).0 == bookings
    ensures Attempt(bookings, capacity, job, row, w).1.NotBooked?
  {
  }

  /** Exactly when a row is reported as not booked although a booking exists under its key:
      the key was taken before the attempt, or the guest was free, the seats were there and
      the reply to the commit was lost. */
  lemma MisreportIff(bookings: seq<Booking>, capacity: map<Uuid, int>, job: Job, row: Row, w: Weather)
    ensures var (after, r) := Attempt(bookings, capacity, job, row, w);
      var key := RowKey(row.job, row.number);
      r.NotBooked? && KeyTaken(after, key) <==>
        || KeyTaken(bookings, key)
        || (LosesReply(w) && !HoldsSlot(bookings, row.guest, job.event, job.occurrence)
            && Fits(bookings, capacity, job.event, job.occurrence, row.quantity))
  {
    var key := RowKey(row.job, row.number);
    var b := NewBooking(job, row);
    if !KeyTaken(bookings, key) && Fits(bookings, capacity, b.event, b.occurrence, b.quantity) {
      assert (bookings + [b])[|bookings|].key == key;
    }
  }

  // ---------------------------------------------------------------- what one attempt does

  /** Seats count the active bookings of one event and occurrence, by their quantity. */
  lemma SeatsCount(bookings: seq<Booking>, b: Booking, event: Uuid, occurrence: int)
    ensures Seats([], event, occurrence) == 0
    ensures Seats(bookings + [b], event, occurrence) == Seats(bookings, event, occurrence)
      + (if b.active && b.event == event && b.occurrence == occurrence then b.quantity else 0)
  {
    var q := if b.active && b.event == event && b.occurrence == occurrence then b.quantity else 0;
    assert SeatColumn([], event, occurrence) == [];
    assert SeatColumn(bookings + [b], event, occurrence) == SeatColumn(bookings, event, occurrence) + [q];
    SumAppend(SeatColumn(bookings, event, occurrence), q);
  }

  /** Who is booked: exactly a guest without an active booking for the slot, when the seats are
      there and the key is new, unless something outside refuses first. Then one active booking
      is added, for the row's guest and quantity at the job's slot; otherwise nothing is. */
  lemma BooksExactlyWhen(bookings: seq<Booking>, capacity: map<Uuid, int>, job: Job, row: Row, w: Weather)
    ensures var after := Attempt(bookings, capacity, job, row, w).0;
      var holds := exists b ::
        && b in bookings && b.active
        && b.guest == row.guest && b.event == job.event && b.occurrence == job.occurrence;
      var fits := job.event in capacity
        && Seats(bookings, job.event, job.occurrence) + row.quantity <= capacity[job.event];
      var key := RowKey(row.job, row.number);
      after == if (w == Clear || w.LostReply? || w == PanicAfter) && !holds && fits && !KeyTaken(bookings, key)
               then bookings + [Booking(key, row.guest, job.event, job.occurrence, row.quantity, true)]
               else bookings
  {
  }

  /** What the row is told: the first obstacle in the order of the code, or its new booking. */
  lemma ToldExactly(bookings: seq<Booking>, capacity: map<Uuid, int>, job: Job, row: Row, w: Weather)
    ensures var r := Attempt(bookings, capacity, job, row, w).1;
      var holds := exists b ::
        && b in bookings && b.active
        && b.guest == row.guest && b.event == job.event && b.occurrence == job.occurrence;
      var fits := job.event in capacity
        && Seats(bookings, job.event, job.occurrence) + row.quantity <= capacity[job.event];
      r == if w == PanicBefore then NotBooked(PANICKED)
           else if w.Refused? then NotBooked(w.message)
           else if holds then NotBooked(DUPLICATE)
           else if !fits then NotBooked(NO_SEATS)
           else if w == Charged then NotBooked(CHANGED)
           else if KeyTaken(bookings, RowKey(row.job, row.number)) then NotBooked(KEY_TAKEN)
           else if w.LostReply? then NotBooked(w.message)
           else if w == PanicAfter then NotBooked(PANICKED)
           else Booked(|bookings|)
  {
  }

  /** Between the checks and the commit the desk may have changed: the commit looks again at seats
      and key, and only at those. */
  lemma CommitLooksAgain(bookings: seq<Booking>, capacity: map<Uuid, int>, job: Job, row: Row, w: Weather)
    ensures var (after, r) := Commit(bookings, capacity, job, row, w);
      var fits := job.event in capacity
        && Seats(bookings, job.event, job.occurrence) + row.quantity <= capacity[job.event];
      var taken := KeyTaken(bookings, RowKey(row.job, row.number));
      && (after == bookings <==> !fits || taken)
      && (!fits ==> r == NotBooked(NO_SEATS)) && (fits && taken ==> r == NotBooked(KEY_TAKEN))
  {
  }

  // ---------------------------------------------------------------- what an insert keeps

  ghost predicate KeysUnique(bookings: seq<Booking>) {
    forall i, k :: 0 <= i < k < |bookings| ==> bookings[i].key != bookings[k].key
  }

  ghost predicate NoOverbooking(bookings: seq<Booking>, capacity: map<Uuid, int>) {
    forall e, o | e in capacity :: Seats(bookings, e, o) <= capacity[e]
  }

  lemma InsertKeeps(bookings: seq<Booking>, capacity: map<Uuid, int>, b: Booking)
    requires KeysUnique(bookings) && NoOverbooking(bookings, capacity)
    requires Insert(bookings, capacity, b).Some?
    ensures KeysUnique(bookings + [b]) && NoOverbooking(bookings + [b], capacity)
  {
    forall e, o | e in capacity ensures Seats(bookings + [b], e, o) <= capacity[e] {
      var q := if b.active && b.event == e && b.occurrence == o then b.quantity else 0;
      assert SeatColumn(bookings + [b], e, o) == SeatColumn(bookings, e, o) + [q];
      SumAppend(SeatColumn(bookings, e, o), q);
      assert Seats(bookings, e, o) <= capacity[e];
    }
  }

  /** Cancelling frees seats and keeps the key taken. */
  lemma CancelKeeps(bookings: seq<Booking>, capacity: map<Uuid, int>, i: nat)
    requires i < |bookings| && KeysUnique(bookings) && NoOverbooking(bookings, capacity)
    ensures KeysUnique(bookings[i := bookings[i].(active := false)])
    ensures NoOverbooking(bookings[i := bookings[i].(active := false)], capacity)
  {
    var after := bookings[i := bookings[i].(active := false)];
    forall e, o | e in capacity ensures Seats(after, e, o) <= capacity[e] {
      assert SeatColumn(after, e, o) == SeatColumn(bookings, e, o)[i := 0];
      SumUpdate(SeatColumn(bookings, e, o), i, 0);
      assert Seats(bookings, e, o) <= capacity[e];
    }
  }
}
