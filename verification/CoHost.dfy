/** Co-host withdrawals: money may be reserved only from the part of an event's earnings whose
    sessions are already over. The pool moves with the clock, with bookings and with claims. */
module CoHost {
  import opened Common

  /** The part of a bookings row the pool reads; a NULL net earning counts as zero. */
  datatype Seat = Seat(event: nat, status: BookingStatus, net: int, occurs: int)

  datatype ClaimStatus = Reserved | Completed | Failed

  datatype Claim = Claim(cohost: nat, event: nat, amount: int, status: ClaimStatus, payment: Option<nat>)

  datatype World = World(seats: seq<Seat>, claims: seq<Claim>, now: int)

  datatype Step =
    | Book(seat: Seat)
    | SetSeat(seatId: nat, to: BookingStatus)
    | Tick(elapsed: nat)
    | Reserve(cohost: nat, event: nat, amount: int)
    | Attach(claim: nat, payment: nat)
    | Settle(claim: nat, outcome: ClaimStatus)
    | SettleByPayment(payment: nat, outcome: ClaimStatus)

  // ---------------------------------------------------------------- the aggregates

  function SeatValue(b: Seat, event: nat, now: int): int {
    if b.event == event && b.status == Confirmed && b.occurs < now then b.net else 0
  }

  function SeatColumn(seats: seq<Seat>, event: nat, now: int): seq<int> {
    seq(|seats|, i requires 0 <= i < |seats| => SeatValue(seats[i], event, now))
  }

  /** EventPassedEarnings. */
  function Passed(s: World, event: nat): int {
    Sum(SeatColumn(s.seats, event, s.now))
  }

  function ClaimValue(c: Claim, event: nat): int {
    if c.event == event && c.status != Failed then c.amount else 0
  }

  function ClaimColumn(claims: seq<Claim>, event: nat): seq<int> {
    seq(|claims|, i requires 0 <= i < |claims| => ClaimValue(claims[i], event))
  }

  /** EventClaimedCents. */
  function Claimed(s: World, event: nat): int {
    Sum(ClaimColumn(s.claims, event))
  }

  /** The amount a shared-event card shows: what is left, never below zero. */
  function Available(s: World, event: nat): int {
    if Passed(s, event) - Claimed(s, event) < 0 then 0 else Passed(s, event) - Claimed(s, event)
  }

  // ---------------------------------------------------------------- the statements

  /** The reserving INSERT: refused when the pool cannot cover it, and by the table's own
      check unless the amount is positive. */
  predicate Admits(s: World, event: nat, amount: int) {
    0 < amount <= Passed(s, event) - Claimed(s, event)
  }

  function ReserveClaim(s: World, cohost: nat, event: nat, amount: int): Option<World> {
    if Admits(s, event, amount) then Some(s.(claims := s.claims + [Claim(cohost, event, amount, Reserved, None)]))
    else None
  }

  function SettledByPayment(claims: seq<Claim>, payment: nat, outcome: ClaimStatus): seq<Claim> {
    seq(|claims|, i requires 0 <= i < |claims| =>
      if claims[i].payment == Some(payment) then claims[i].(status := outcome) else claims[i])
  }

  function Apply(s: World, step: Step): World {
    match step
    case Book(seat) => s.(seats := s.seats + [seat])
    case SetSeat(id, to) => if id < |s.seats| then s.(seats := s.seats[id := s.seats[id].(status := to)]) else s
    case Tick(elapsed) => s.(now := s.now + elapsed)
    case Reserve(cohost, event, amount) =>
      (match ReserveClaim(s, cohost, event, amount) case Some(s') => s' case None => s)
    case Attach(c, p) => if c < |s.claims| then s.(claims := s.claims[c := s.claims[c].(payment := Some(p))]) else s
    case Settle(c, outcome) =>
      if c < |s.claims| then s.(claims := s.claims[c := s.claims[c].(status := outcome)]) else s
    case SettleByPayment(p, outcome) => s.(claims := SettledByPayment(s.claims, p, outcome))
  }

  function Run(s: World, steps: seq<Step>): World {
    if steps == [] then s else Apply(Run(s, steps[..|steps| - 1]), steps[|steps| - 1])
  }

  // ---------------------------------------------------------------- which seats count

  lemma PassedAppend(s: World, b: Seat, event: nat)
    ensures Passed(Apply(s, Book(b)), event) == Passed(s, event) + SeatValue(b, event, s.now)
  {
    assert SeatColumn(s.seats + [b], event, s.now) == SeatColumn(s.seats, event, s.now) + [SeatValue(b, event, s.now)];
    SumAppend(SeatColumn(s.seats, event, s.now), SeatValue(b, event, s.now));
  }

  lemma PassedUpdate(s: World, i: nat, b: Seat, event: nat)
    requires i < |s.seats|
    ensures Passed(s.(seats := s.seats[i := b]), event)
      == Passed(s, event) - SeatValue(s.seats[i], event, s.now) + SeatValue(b, event, s.now)
  {
    var column, value := SeatColumn(s.seats, event, s.now), SeatValue(b, event, s.now);
    assert SeatColumn(s.seats[i := b], event, s.now) == column[i := value];
    SumUpdate(column, i, value);
  }

  /** The pool of an event is the net earnings of its own confirmed seats whose session is over:
      nothing counts before there is a seat, a new seat counts exactly if it is one of those, and
      a status write counts only for the seat's own event, by its net earning. */
  lemma PoolCounts(s: World, b: Seat, i: nat, to: BookingStatus, event: nat)
    ensures s.seats == [] ==> Passed(s, event) == 0
    ensures Passed(Apply(s, Book(b)), event) == Passed(s, event)
      + (if b.event == event && b.status == Confirmed && b.occurs < s.now then b.net else 0)
    ensures i < |s.seats| ==>
      var before, after := s.seats[i].status == Confirmed, to == Confirmed;
      Passed(Apply(s, SetSeat(i, to)), event) == Passed(s, event)
        + (if s.seats[i].event != event || s.seats[i].occurs >= s.now || before == after then 0
           else if after then s.seats[i].net else -s.seats[i].net)
  {
    PassedAppend(s, b, event);
    if s.seats == [] { assert SeatColumn(s.seats, event, s.now) == []; }
    if i < |s.seats| { PassedUpdate(s, i, s.seats[i].(status := to), event); }
  }

  /** So nothing can be reserved from an event without a confirmed seat whose session is over,
      whatever other events have earned. */
  lemma NothingEarnedNothingReserved(s: World, cohost: nat, event: nat, amount: int)
    requires forall b :: b in s.seats ==> !(b.event == event && b.status == Confirmed && b.occurs < s.now)
    requires PositiveClaims(s)
    ensures Passed(s, event) == 0 && ReserveClaim(s, cohost, event, amount) == None
  {
    forall i | 0 <= i < |s.seats| ensures SeatColumn(s.seats, event, s.now)[i] == 0 {
      assert s.seats[i] in s.seats;
    }
    SumZero(SeatColumn(s.seats, event, s.now));
    SumNonNegative(ClaimColumn(s.claims, event));
  }

  // ---------------------------------------------------------------- one statement

  lemma ClaimedAppend(s: World, c: Claim, event: nat)
    ensures Claimed(s.(claims := s.claims + [c]), event) == Claimed(s, event) + ClaimValue(c, event)
  {
    assert ClaimColumn(s.claims + [c], event) == ClaimColumn(s.claims, event) + [ClaimValue(c, event)];
    SumAppend(ClaimColumn(s.claims, event), ClaimValue(c, event));
  }

  lemma ClaimedUpdate(s: World, i: nat, c: Claim, event: nat)
    requires i < |s.claims|
    ensures Claimed(s.(claims := s.claims[i := c]), event)
      == Claimed(s, event) - ClaimValue(s.claims[i], event) + ClaimValue(c, event)
  {
    assert ClaimColumn(s.claims[i := c], event) == ClaimColumn(s.claims, event)[i := ClaimValue(c, event)];
    SumUpdate(ClaimColumn(s.claims, event), i, ClaimValue(c, event));
  }

  /** For every positive amount the reservation succeeds exactly when it is at most the amount
      shown, lowers what is shown by exactly that, and leaves every other event's pool alone. */
  lemma ReserveMatchesShown(s: World, cohost: nat, event: nat, amount: int, other: nat)
    requires amount > 0
    ensures ReserveClaim(s, cohost, event, amount).Some? <==> amount <= Available(s, event)
    ensures match ReserveClaim(s, cohost, event, amount)
      case Some(s') =>
        && Available(s', event) == Available(s, event) - amount
        && (other != event ==> Available(s', other) == Available(s, other))
      case None => true
  {
    ClaimedAppend(s, Claim(cohost, event, amount, Reserved, None), event);
    ClaimedAppend(s, Claim(cohost, event, amount, Reserved, None), other);
  }

  /** Releasing a reservation gives back exactly what it took, if it had not failed before. */
  lemma ReleaseGivesBack(s: World, c: nat)
    requires c < |s.claims| && s.claims[c].status != Failed
    ensures Claimed(Apply(s, Settle(c, Failed)), s.claims[c].event)
      == Claimed(s, s.claims[c].event) - s.claims[c].amount
  {
    ClaimedUpdate(s, c, s.claims[c].(status := Failed), s.claims[c].event);
  }

  // ---------------------------------------------------------------- revived claims

  /** The step turns failed claim `c`, at position `i`, into a live one. */
  predicate Revives(step: Step, c: Claim, i: nat) {
    c.status == Failed &&
    match step
    case Settle(k, outcome) => k == i && outcome != Failed
    case SettleByPayment(p, outcome) => c.payment == Some(p) && outcome != Failed
    case _ => false
  }

  function RevivedColumn(claims: seq<Claim>, step: Step, event: nat): seq<int> {
    seq(|claims|, i requires 0 <= i < |claims| =>
      if claims[i].event == event && Revives(step, claims[i], i) then claims[i].amount else 0)
  }

  /** What the step brings back to life on an event. */
  function Revived(s: World, step: Step, event: nat): int {
    Sum(RevivedColumn(s.claims, step, event))
  }

  ghost predicate PositiveClaims(s: World) {
    forall i :: 0 <= i < |s.claims| ==> s.claims[i].amount > 0
  }

  /** A live outcome adds exactly the failed claims it revives. */
  lemma LiveOutcome(s: World, step: Step, event: nat)
    requires (step.Settle? || step.SettleByPayment?) && step.outcome != Failed
    ensures Claimed(Apply(s, step), event) == Claimed(s, event) + Revived(s, step, event)
  {
    var s' := Apply(s, step);
    SumAdd(ClaimColumn(s.claims, event), RevivedColumn(s.claims, step, event), ClaimColumn(s'.claims, event));
  }

  lemma FailedOutcome(s: World, step: Step, event: nat)
    requires PositiveClaims(s) && (step.Settle? || step.SettleByPayment?) && step.outcome == Failed
    ensures Claimed(Apply(s, step), event) <= Claimed(s, event)
  {
    SumMonotone(ClaimColumn(Apply(s, step).claims, event), ClaimColumn(s.claims, event));
  }

  lemma NothingRevived(s: World, step: Step, event: nat)
    requires forall i {:trigger s.claims[i]} :: 0 <= i < |s.claims| ==> !Revives(step, s.claims[i], i)
    ensures Revived(s, step, event) == 0
  {
    SumZero(RevivedColumn(s.claims, step, event));
  }

  /** Nothing stops a late "completed" outcome from reaching claims that already failed and
      whose money was reserved again. It keeps the event within its pool exactly when what is
      left still covers the failed claims of that payment. */
  lemma RevivalIff(s: World, payment: nat, event: nat)
    ensures Claimed(Apply(s, SettleByPayment(payment, Completed)), event) <= Passed(s, event)
      <==> Revived(s, SettleByPayment(payment, Completed), event) <= Passed(s, event) - Claimed(s, event)
  {
    LiveOutcome(s, SettleByPayment(payment, Completed), event);
  }

  lemma OtherStepClaims(s: World, step: Step, event: nat)
    requires !step.Settle? && !step.SettleByPayment?
    ensures Revived(s, step, event) == 0
    ensures Claimed(Apply(s, step), event) <= Claimed(s, event)
      || Claimed(Apply(s, step), event) <= Passed(Apply(s, step), event)
  {
    NothingRevived(s, step, event);
    if step.Reserve? {
      if Admits(s, step.event, step.amount) {
        ClaimedAppend(s, Claim(step.cohost, step.event, step.amount, Reserved, None), event);
      }
    } else if step.Attach? && step.claim < |s.claims| {
      ClaimedUpdate(s, step.claim, s.claims[step.claim].(payment := Some(step.payment)), event);
    }
  }

  lemma StepPositive(s: World, step: Step)
    requires PositiveClaims(s)
    ensures PositiveClaims(Apply(s, step))
  {
  }

  function Max(a: int, b: int): int { if a < b then b else a }

  /** Against any bound the pool has respected, a step keeps the claims within the larger of the
      bound and the new pool exactly when what it revives is covered. */
  lemma StepWithinIff(s: World, step: Step, event: nat, bound: int)
    requires PositiveClaims(s) && Claimed(s, event) <= bound && Passed(s, event) <= bound
    ensures Claimed(Apply(s, step), event) <= Max(bound, Passed(Apply(s, step), event))
      <==> Revived(s, step, event) <= bound - Claimed(s, event)
  {
    if !step.Settle? && !step.SettleByPayment? {
      OtherStepClaims(s, step, event);
    } else if step.outcome == Failed {
      FailedOutcome(s, step, event);
      NothingRevived(s, step, event);
    } else {
      LiveOutcome(s, step, event);
    }
  }

  // ---------------------------------------------------------------- within the peak

  /** The largest pool the event has had at any point of the run. */
  function Peak(s: World, steps: seq<Step>, event: nat): int {
    if steps == [] then Passed(s, event)
    else Max(Peak(s, steps[..|steps| - 1], event), Passed(Run(s, steps), event))
  }

  lemma PoolBelowPeak(s: World, steps: seq<Step>, event: nat)
    ensures Passed(Run(s, steps), event) <= Peak(s, steps, event)
  {
  }

  ghost predicate WithinPeak(s: World, steps: seq<Step>, event: nat)
    decreases |steps|
  {
    && Claimed(Run(s, steps), event) <= Peak(s, steps, event)
    && (steps == [] || WithinPeak(s, steps[..|steps| - 1], event))
  }

  /** Every revival was covered by what the peak of that moment left. */
  ghost predicate PeakCovers(s: World, steps: seq<Step>, event: nat)
    decreases |steps|
  {
    steps == [] ||
    var front := steps[..|steps| - 1];
    && PeakCovers(s, front, event)
    && Revived(Run(s, front), steps[|steps| - 1], event) <= Peak(s, front, event) - Claimed(Run(s, front), event)
  }

  /** Over every run of bookings, cancellations, clock advances, reservations and payout
      outcomes: what is claimed on an event stays within the largest passed pool it has had so
      far, throughout, exactly when every failed claim brought back to life is covered. */
  lemma {:induction false} WithinPeakIff(s: World, steps: seq<Step>, event: nat)
    requires PositiveClaims(s) && Claimed(s, event) <= Passed(s, event)
    ensures PositiveClaims(Run(s, steps))
    ensures WithinPeak(s, steps, event) <==> PeakCovers(s, steps, event)
  {
    if steps != [] {
      var front, last := steps[..|steps| - 1], steps[|steps| - 1];
      WithinPeakIff(s, front, event);
      StepPositive(Run(s, front), last);
      if WithinPeak(s, front, event) {
        PoolBelowPeak(s, front, event);
        StepWithinIff(Run(s, front), last, event, Peak(s, front, event));
      }
    }
  }

  /** The step lets no failed claim come back to life. */
  ghost predicate StaysFailed(s: World, step: Step) {
    forall i {:trigger s.claims[i]} :: 0 <= i < |s.claims| ==> !Revives(step, s.claims[i], i)
  }

  ghost predicate NoRevival(s: World, steps: seq<Step>)
    decreases |steps|
  {
    steps == [] || (NoRevival(s, steps[..|steps| - 1]) && StaysFailed(Run(s, steps[..|steps| - 1]), steps[|steps| - 1]))
  }

  /** In particular, if failed claims stay failed. */
  lemma {:induction false} ClaimedWithinPeak(s: World, steps: seq<Step>, event: nat)
    requires PositiveClaims(s) && Claimed(s, event) <= Passed(s, event) && NoRevival(s, steps)
    ensures WithinPeak(s, steps, event)
  {
    if steps != [] {
      var front, last := steps[..|steps| - 1], steps[|steps| - 1];
      ClaimedWithinPeak(s, front, event);
      NothingRevived(Run(s, front), last, event);
      WithinPeakIff(s, front, event);
      WithinPeakIff(s, steps, event);
    }
  }

  // ---------------------------------------------------------------- runs that keep passed seats

  ghost predicate Earning(s: World) {
    forall i :: 0 <= i < |s.seats| ==> s.seats[i].net >= 0
  }

  predicate IsPassed(b: Seat, now: int) { b.status == Confirmed && b.occurs < now }

  /** No confirmed seat whose session is over loses its status, and new seats earn nothing
      negative. */
  ghost predicate KeepsPassed(s: World, step: Step) {
    && (step.Book? ==> step.seat.net >= 0)
    && (step.SetSeat? && step.seatId < |s.seats| && IsPassed(s.seats[step.seatId], s.now) ==> step.to == Confirmed)
  }

  ghost predicate AllKeepPassed(s: World, steps: seq<Step>)
    decreases |steps|
  {
    steps == [] ||
    (AllKeepPassed(s, steps[..|steps| - 1]) && KeepsPassed(Run(s, steps[..|steps| - 1]), steps[|steps| - 1]))
  }

  lemma PoolGrows(s: World, step: Step, event: nat)
    requires Earning(s) && KeepsPassed(s, step)
    ensures Earning(Apply(s, step)) && Passed(s, event) <= Passed(Apply(s, step), event)
  {
    var s' := Apply(s, step);
    if step.Book? {
      assert SeatColumn(s'.seats, event, s.now)
        == SeatColumn(s.seats, event, s.now) + [SeatValue(step.seat, event, s.now)];
      SumAppend(SeatColumn(s.seats, event, s.now), SeatValue(step.seat, event, s.now));
    } else {
      SumMonotone(SeatColumn(s.seats, event, s.now), SeatColumn(s'.seats, event, s'.now));
    }
  }

  /** Then the peak is the current pool. */
  lemma {:induction false} PeakIsPool(s: World, steps: seq<Step>, event: nat)
    requires Earning(s) && AllKeepPassed(s, steps)
    ensures Earning(Run(s, steps)) && Peak(s, steps, event) == Passed(Run(s, steps), event)
  {
    if steps != [] {
      PeakIsPool(s, steps[..|steps| - 1], event);
      PoolGrows(Run(s, steps[..|steps| - 1]), steps[|steps| - 1], event);
    }
  }

  ghost predicate WithinPool(s: World, steps: seq<Step>, event: nat)
    decreases |steps|
  {
    && Claimed(Run(s, steps), event) <= Passed(Run(s, steps), event)
    && (steps == [] || WithinPool(s, steps[..|steps| - 1], event))
  }

  lemma {:induction false} PoolAndPeak(s: World, steps: seq<Step>, event: nat)
    requires Earning(s) && AllKeepPassed(s, steps)
    ensures WithinPool(s, steps, event) <==> WithinPeak(s, steps, event)
  {
    PeakIsPool(s, steps, event);
    if steps != [] {
      PoolAndPeak(s, steps[..|steps| - 1], event);
    }
  }

  /** If no passed confirmed seat is ever cancelled, what is claimed stays within the current
      pool throughout exactly when every revival is covered, so always if failed claims stay
      failed. */
  lemma {:induction false} ClaimedWithinPool(s: World, steps: seq<Step>, event: nat)
    requires PositiveClaims(s) && Earning(s) && Claimed(s, event) <= Passed(s, event) && AllKeepPassed(s, steps)
    ensures WithinPool(s, steps, event) <==> PeakCovers(s, steps, event)
    ensures NoRevival(s, steps) ==> WithinPool(s, steps, event)
  {
    PoolAndPeak(s, steps, event);
    WithinPeakIff(s, steps, event);
    if NoRevival(s, steps) { ClaimedWithinPeak(s, steps, event); }
  }

  // ---------------------------------------------------------------- a failed claim revived

  /** A pool paid out twice: reserve, fail, reserve again, then the first payout's late
      completion arrives. */
  lemma PaidTwice(now: int, pool: int)
    requires pool > 0
    ensures var s := World([Seat(0, Confirmed, pool, now - 1)], [], now);
      var s1 := Apply(s, Reserve(1, 0, pool));
      var s2 := Apply(s1, Attach(0, 7));
      var s3 := Apply(s2, SettleByPayment(7, Failed));
      var s4 := Apply(s3, Reserve(2, 0, pool));
      var s5 := Apply(s4, SettleByPayment(7, Completed));
      Passed(s5, 0) == pool && Claimed(s5, 0) == 2 * pool
  {
    var s := World([Seat(0, Confirmed, pool, now - 1)], [], now);
    assert SeatColumn(s.seats, 0, now) == [] + [pool] && ClaimColumn([], 0) == [];
    SumAppend([], pool);
    var s2 := s.(claims := [Claim(1, 0, pool, Reserved, Some(7))]);
    assert Apply(Apply(s, Reserve(1, 0, pool)), Attach(0, 7)) == s2;
    var s3 := s.(claims := [Claim(1, 0, pool, Failed, Some(7))]);
    assert Apply(s2, SettleByPayment(7, Failed)) == s3;
    OneClaim(s3, 0);
    assert Apply(s3, Reserve(2, 0, pool)) == s3.(claims := s3.claims + [Claim(2, 0, pool, Reserved, None)]);
    var s5 := s.(claims := [Claim(1, 0, pool, Completed, Some(7))]);
    assert Apply(Apply(s3, Reserve(2, 0, pool)), SettleByPayment(7, Completed)).claims
      == s5.claims + [Claim(2, 0, pool, Reserved, None)];
    OneClaim(s5, 0);
    ClaimedAppend(s5, Claim(2, 0, pool, Reserved, None), 0);
  }

  lemma OneClaim(s: World, event: nat)
    requires |s.claims| == 1
    ensures Claimed(s, event) == ClaimValue(s.claims[0], event)
  {
    assert ClaimColumn(s.claims, event) == [] + [ClaimValue(s.claims[0], event)];
    SumAppend([], ClaimValue(s.claims[0], event));
  }

  // ---------------------------------------------------------------- what the co-host sees

  datatype ShareStatus = Invited | Accepted | Declined | Revoked

  datatype Share = Share(id: nat, event: nat, host: nat, status: ShareStatus, canWithdraw: bool, recurring: bool,
                         eventTime: int)

  const THIRTY_DAYS := 30 * 24 * 3600

  /** GREATEST(e.time, the last confirmed session). */
  function LastSession(seats: seq<Seat>, event: nat, eventTime: int): int {
    if seats == [] then eventTime
    else
      var b := seats[|seats| - 1];
      var before := LastSession(seats[..|seats| - 1], event, eventTime);
      if b.event == event && b.status == Confirmed && before < b.occurs then b.occurs else before
  }

  predicate CoHostActive(s: World, h: Share) {
    && h.status in {Invited, Accepted}
    && (h.recurring || LastSession(s.seats, h.event, h.eventTime) >= s.now - THIRTY_DAYS
        || Passed(s, h.event) > Claimed(s, h.event))
  }

  /** A share is shown while it is invited or accepted, except that one of an event that does not
      recur and has been over for more than thirty days is hidden exactly when every withdrawal
      would be refused. */
  lemma HiddenOnlyWhenExhausted(s: World, h: Share)
    ensures h.status in {Declined, Revoked} ==> !CoHostActive(s, h)
    ensures h.status in {Invited, Accepted} ==>
      (!CoHostActive(s, h) <==>
        && !h.recurring && s.now - LastSession(s.seats, h.event, h.eventTime) > 30 * 24 * 3600
        && forall amount :: !Admits(s, h.event, amount))
  {
    if Passed(s, h.event) > Claimed(s, h.event) {
      assert Admits(s, h.event, Passed(s, h.event) - Claimed(s, h.event));
    }
  }

  /** The largest confirmed session decides, not the order of the rows. */
  lemma {:induction false} LastSessionIsMax(seats: seq<Seat>, event: nat, eventTime: int)
    ensures eventTime <= LastSession(seats, event, eventTime)
    ensures forall b :: b in seats && b.event == event && b.status == Confirmed ==>
      b.occurs <= LastSession(seats, event, eventTime)
    ensures LastSession(seats, event, eventTime) == eventTime
      || exists b ::
           && b in seats && b.event == event && b.status == Confirmed
           && b.occurs == LastSession(seats, event, eventTime)
  {
    if seats != [] {
      LastSessionIsMax(seats[..|seats| - 1], event, eventTime);
      assert seats == seats[..|seats| - 1] + [seats[|seats| - 1]];
    }
  }

  datatype Card = Card(share: nat, event: nat, passed: int, claimed: int, available: int)

  // ---------------------------------------------------------------- the repository and its service

  /** What the payout behind a withdrawal reports back. */
  datatype Payout = Refused | Processing(payment: nat) | Paid(payment: nat) | Bounced(payment: nat)

  /** The claim status a payout leaves behind. */
  function ClaimOf(p: Payout): ClaimStatus {
    match p
    case Refused => Failed
    case Processing(_) => Reserved
    case Paid(_) => Completed
    case Bounced(_) => Failed
  }

  /** A withdrawal takes exactly its amount out of what is shown, unless its payout was refused
      or failed at once, which takes nothing; asking for everything leaves nothing. */
  lemma WithdrawalTakes(s: World, cohost: nat, event: nat, amount: int, payout: Payout, payment: Option<nat>)
    requires 0 < amount <= Available(s, event)
    ensures var s' := s.(claims := s.claims + [Claim(cohost, event, amount, ClaimOf(payout), payment)]);
      && Available(s', event) == Available(s, event) - (if payout.Refused? || payout.Bounced? then 0 else amount)
      && (amount == Available(s, event) && (payout.Processing? || payout.Paid?) ==>
           forall more :: more > 0 ==> !Admits(s', event, more))
    ensures match payout
      case Processing(_) => ClaimOf(payout) == Reserved
      case Paid(_) => ClaimOf(payout) == Completed
      case _ => ClaimOf(payout) == Failed
  {
    ClaimedAppend(s, Claim(cohost, event, amount, ClaimOf(payout), payment), event);
  }

  datatype WithdrawalResult =
    | NoShare
    | NotAccepted
    | NoAccess
    | NothingLeft
    | NotCovered
    | PayoutRefused
    | Started(claim: nat, amount: int)

  /** What a withdrawal with access does, outcome by outcome. */
  predicate Withdrew(s: World, s': World, cohost: nat, event: nat, requested: int, payout: Payout,
                     r: WithdrawalResult)
  {
    var amount := if requested > 0 then requested else Available(s, event);
    match r
    case NothingLeft => requested <= 0 && Available(s, event) == 0 && s' == s
    case NotCovered => amount > Available(s, event) && s' == s
    case PayoutRefused =>
      && 0 < amount <= Available(s, event) && payout == Refused
      && s' == s.(claims := s.claims + [Claim(cohost, event, amount, Failed, None)])
    case Started(claim, paid) =>
      && paid == amount && 0 < amount <= Available(s, event) && payout != Refused && claim == |s.claims|
      && s' == s.(claims := s.claims + [Claim(cohost, event, amount, ClaimOf(payout), Some(payout.payment))])
    case _ => false
  }

  class ClaimDesk {
    var seats: seq<Seat>
    var claims: seq<Claim>
    var now: int

    function Value(): World
      reads this
    {
      World(seats, claims, now)
    }

    constructor (seats: seq<Seat>, now: int)
      ensures Value() == World(seats, [], now)
    {
      this.seats, this.claims, this.now := seats, [], now;
    }

    method EventPassedEarnings(event: nat) returns (sum: int)
      ensures sum == Passed(Value(), event)
    {
      sum := 0;
      assert SeatColumn(seats[..0], event, now) == [];
      for i := 0 to |seats|
        invariant sum == Sum(SeatColumn(seats[..i], event, now))
      {
        assert SeatColumn(seats[..i + 1], event, now)
          == SeatColumn(seats[..i], event, now) + [SeatValue(seats[i], event, now)];
        SumAppend(SeatColumn(seats[..i], event, now), SeatValue(seats[i], event, now));
        if seats[i].event == event && seats[i].status == Confirmed && seats[i].occurs < now {
          sum := sum + seats[i].net;
        }
      }
      assert seats[..|seats|] == seats;
    }

    method EventClaimedCents(event: nat) returns (sum: int)
      ensures sum == Claimed(Value(), event)
    {
      sum := 0;
      assert ClaimColumn(claims[..0], event) == [];
      for i := 0 to |claims|
        invariant sum == Sum(ClaimColumn(claims[..i], event))
      {
        assert ClaimColumn(claims[..i + 1], event) == ClaimColumn(claims[..i], event) + [ClaimValue(claims[i], event)];
        SumAppend(ClaimColumn(claims[..i], event), ClaimValue(claims[i], event));
        if claims[i].event == event && claims[i].status != Failed {
          sum := sum + claims[i].amount;
        }
      }
      assert claims[..|claims|] == claims;
    }

    /** One statement: decide and insert. */
    method Reserve(cohost: nat, event: nat, amount: int) returns (id: Option<nat>)
      modifies this`claims
      ensures id.Some? <==> Admits(old(Value()), event, amount)
      ensures Value() == Apply(old(Value()), Step.Reserve(cohost, event, amount))
      ensures id.Some? ==>
        && id.value == old(|claims|) && claims == old(claims) + [Claim(cohost, event, amount, Reserved, None)]
        && 0 < amount <= Passed(old(Value()), event) - Claimed(old(Value()), event)
      ensures id.None? ==> claims == old(claims)
    {
      var passed := EventPassedEarnings(event);
      var claimed := EventClaimedCents(event);
      if amount <= 0 || amount > passed - claimed { return None; }
      id := Some(|claims|);
      claims := claims + [Claim(cohost, event, amount, Reserved, None)];
    }

    method AttachPayment(claim: nat, payment: nat)
      modifies this`claims
      ensures Value() == Apply(old(Value()), Attach(claim, payment))
      ensures claim < old(|claims|) ==> claims == old(claims)[claim := old(claims)[claim].(payment := Some(payment))]
    {
      if claim < |claims| {
        claims := claims[claim := claims[claim].(payment := Some(payment))];
      }
    }

    method SetClaimStatus(claim: nat, outcome: ClaimStatus)
      modifies this`claims
      ensures Value() == Apply(old(Value()), Settle(claim, outcome))
      ensures claim < old(|claims|) ==> claims == old(claims)[claim := old(claims)[claim].(status := outcome)]
    {
      if claim < |claims| {
        claims := claims[claim := claims[claim].(status := outcome)];
      }
    }

    method SetClaimStatusByPayment(payment: nat, outcome: ClaimStatus)
      modifies this`claims
      ensures Value() == Apply(old(Value()), SettleByPayment(payment, outcome))
      ensures |claims| == old(|claims|) && forall i :: 0 <= i < |claims| ==>
        var c := old(claims)[i];
        claims[i] == if c.payment.Some? && c.payment.value == payment then c.(status := outcome) else c
    {
      for i := 0 to |claims|
        invariant |claims| == old(|claims|)
        invariant forall k :: 0 <= k < i ==> claims[k] == SettledByPayment(old(claims), payment, outcome)[k]
        invariant forall k :: i <= k < |claims| ==> claims[k] == old(claims)[k]
      {
        if claims[i].payment == Some(payment) {
          claims := claims[i := claims[i].(status := outcome)];
        }
      }
      assert claims == SettledByPayment(old(claims), payment, outcome);
    }

    /** RequestCoHostWithdrawal by `host` on a share looked up by its id: the access checks in
        order; an amount of zero or less asks for all that is left; the slice is reserved first
        and released when the payout does not start or fails at once. */
    method Withdraw(share: Option<Share>, host: nat, requested: int, payout: Payout) returns (r: WithdrawalResult)
      modifies this`claims
      ensures r.NoShare? <==> share.None? || share.value.host != host
      ensures r.NotAccepted? <==> !r.NoShare? && share.value.status != Accepted
      ensures r.NoAccess? <==> !r.NoShare? && share.value.status == Accepted && !share.value.canWithdraw
      ensures r.NoShare? || r.NotAccepted? || r.NoAccess? ==> Value() == old(Value())
      ensures share.Some? && !r.NoShare? && !r.NotAccepted? && !r.NoAccess? ==>
        Withdrew(old(Value()), Value(), share.value.id, share.value.event, requested, payout, r)
    {
      if share.None? || share.value.host != host { return NoShare; }
      if share.value.status != Accepted { return NotAccepted; }
      if !share.value.canWithdraw { return NoAccess; }
      r := WithdrawFrom(share.value.id, share.value.event, requested, payout);
    }

    method WithdrawFrom(cohost: nat, event: nat, requested: int, payout: Payout) returns (r: WithdrawalResult)
      modifies this`claims
      ensures Withdrew(old(Value()), Value(), cohost, event, requested, payout, r)
      ensures var left := Available(old(Value()), event);
        var amount := if requested > 0 then requested else left;
        match r
        case NothingLeft => requested <= 0 && left == 0 && claims == old(claims)
        case NotCovered => amount > left && claims == old(claims)
        case PayoutRefused =>
          && 0 < amount <= left && payout == Refused
          && claims == old(claims) + [Claim(cohost, event, amount, Failed, None)]
        case Started(claim, paid) =>
          && paid == amount && 0 < amount <= left && payout != Refused && claim == old(|claims|)
          && claims == old(claims) + [Claim(cohost, event, amount, ClaimOf(payout), Some(payout.payment))]
        case _ => false
    {
      var amount := requested;
      if amount <= 0 {
        var passed := EventPassedEarnings(event);
        var claimed := EventClaimedCents(event);
        amount := passed - claimed;
      }
      if amount <= 0 { return NothingLeft; }
      var id := Reserve(cohost, event, amount);
      if id.None? { return NotCovered; }
      var claim := id.value;
      match payout {
        case Refused =>
          SetClaimStatus(claim, Failed);
          r := WithdrawalResult.PayoutRefused;
        case Processing(payment) =>
          AttachPayment(claim, payment);
          r := Started(claim, amount);
        case Paid(payment) =>
          AttachPayment(claim, payment);
          SetClaimStatus(claim, Completed);
          r := Started(claim, amount);
        case Bounced(payment) =>
          AttachPayment(claim, payment);
          SetClaimStatus(claim, Failed);
          r := Started(claim, amount);
      }
    }

    /** The cards of one host, newest first as listed; every card shows exactly what the
        reserving statement would still accept. */
    method ListSharedWithHost(shares: seq<Share>, host: nat) returns (cards: seq<Card>, source: seq<nat>)
      ensures |source| == |cards| && forall k :: 0 <= k < |source| ==> source[k] < |shares|
      ensures forall j, k :: 0 <= j < k < |source| ==> source[j] < source[k]
      ensures forall i :: 0 <= i < |shares| ==>
        (i in source <==> shares[i].host == host && CoHostActive(Value(), shares[i]))
      ensures forall k :: 0 <= k < |cards| ==>
        && cards[k].share == shares[source[k]].id && cards[k].event == shares[source[k]].event
        && cards[k].passed == Passed(Value(), cards[k].event) && cards[k].claimed == Claimed(Value(), cards[k].event)
        && cards[k].available == Available(Value(), cards[k].event)
        && forall amount :: amount > 0 ==> (amount <= cards[k].available <==> Admits(Value(), cards[k].event, amount))
    {
      cards, source := [], [];
      for i := 0 to |shares|
        invariant |source| == |cards| && forall k :: 0 <= k < |source| ==> source[k] < i
        invariant forall j, k :: 0 <= j < k < |source| ==> source[j] < source[k]
        invariant forall j :: 0 <= j < i ==>
          (j in source <==> shares[j].host == host && CoHostActive(Value(), shares[j]))
        invariant forall k :: 0 <= k < |cards| ==>
          && cards[k].share == shares[source[k]].id && cards[k].event == shares[source[k]].event
          && cards[k].passed == Passed(Value(), cards[k].event) && cards[k].claimed == Claimed(Value(), cards[k].event)
          && cards[k].available == Available(Value(), cards[k].event)
      {
        if shares[i].host == host && CoHostActive(Value(), shares[i]) {
          var passed := EventPassedEarnings(shares[i].event);
          var claimed := EventClaimedCents(shares[i].event);
          var available := passed - claimed;
          if available < 0 { available := 0; }
          cards := cards + [Card(shares[i].id, shares[i].event, passed, claimed, available)];
          source := source + [i];
        }
      }
    }
  }
}
