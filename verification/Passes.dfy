/** Monthly passes: sessions are spent and handed back by guarded single-row updates, while a
    pure view of the same row decides what the guest is told. */
module Passes {
  import opened Common

  datatype PassStatus = Active | Expired | Refunded

  /** A user_passes row. `consumed` and `released` record its history: how often a session was
      spent and how often one was handed back. */
  datatype Pass = Pass(event: nat, user: nat, included: Option<nat>, used: int, from: int, until: int,
                       status: PassStatus, consumed: nat, released: nat)

  // ---------------------------------------------------------------- the pure view

  /** SessionsRemaining: None when the pass is unlimited. */
  function SessionsRemaining(p: Pass): Option<nat> {
    match p.included
    case None => None
    case Some(n) => Some(if n - p.used < 0 then 0 else n - p.used)
  }

  predicate IsUsable(p: Pass, t: int) {
    if p.status != Active then false
    else if t < p.from || p.until < t then false
    else if SessionsRemaining(p) == Some(0) then false
    else true
  }

  // ---------------------------------------------------------------- the guarded updates

  /** ConsumeSession: the guards live in the UPDATE, no row means ErrPassUnusable. */
  function Consume(p: Pass, occurrence: int): Option<Pass> {
    if p.status == Active && p.from <= occurrence <= p.until && (p.included.Some? ==> p.used < p.included.value)
    then Some(p.(used := p.used + 1, consumed := p.consumed + 1))
    else None
  }

  /** ReleaseSession: GREATEST(sessions_used - 1, 0), with no guard at all. */
  function Release(p: Pass): Pass {
    p.(used := if p.used - 1 > 0 then p.used - 1 else 0, released := p.released + 1)
  }

  function Lapse(p: Pass, event: nat, user: nat, now: int): Pass {
    if p.event == event && p.user == user && p.status == Active && p.until <= now then p.(status := Expired) else p
  }

  function Lapsed(passes: seq<Pass>, event: nat, user: nat, now: int): seq<Pass> {
    seq(|passes|, i requires 0 <= i < |passes| => Lapse(passes[i], event, user, now))
  }

  predicate Counts(p: Pass, event: nat, now: int) { p.event == event && p.status == Active && p.until > now }

  function CountActive(passes: seq<Pass>, event: nat, now: int): nat {
    if passes == [] then 0
    else CountActive(passes[..|passes| - 1], event, now) + (if Counts(passes[|passes| - 1], event, now) then 1 else 0)
  }

  /** What the guest is told and what the database does agree at every moment: the pass is
      usable for a session exactly when consuming one for it succeeds, which is while it is
      active, within its dates, both included, and not used up. */
  lemma UsableIffConsumes(p: Pass, t: int)
    ensures IsUsable(p, t) <==> Consume(p, t).Some?
    ensures IsUsable(p, t) <==>
      p.status == Active && p.from <= t <= p.until && (p.included == None || p.included.value > p.used)
    ensures Consume(p, t).Some? && p.included.Some? ==>
      SessionsRemaining(Consume(p, t).value) == Some(SessionsRemaining(p).value - 1)
  {
  }

  /** Marking lapsed passes expired changes no count of active passes, for any event, now or at
      any later time. */
  lemma {:induction false} ExpireKeepsCount(passes: seq<Pass>, event: nat, user: nat, now: int, counted: nat,
                                            later: int)
    requires now <= later
    ensures CountActive(Lapsed(passes, event, user, now), counted, later) == CountActive(passes, counted, later)
  {
    if passes != [] {
      var front := passes[..|passes| - 1];
      ExpireKeepsCount(front, event, user, now, counted, later);
      assert Lapsed(passes, event, user, now)[..|passes| - 1] == Lapsed(front, event, user, now);
    }
  }

  lemma {:induction false} CountUpdate(passes: seq<Pass>, i: nat, p: Pass, event: nat, now: int)
    requires i < |passes|
    ensures CountActive(passes[i := p], event, now) == CountActive(passes, event, now)
      - (if Counts(passes[i], event, now) then 1 else 0) + (if Counts(p, event, now) then 1 else 0)
  {
    var n := |passes| - 1;
    if i == n {
      assert passes[i := p][..n] == passes[..n];
    } else {
      CountUpdate(passes[..n], i, p, event, now);
      assert passes[i := p][..n] == passes[..n][i := p];
    }
  }

  /** What is counted: the active passes of the event that run beyond this moment. Buying one adds
      one, a status write takes one off exactly when it ends such a pass and adds one exactly when
      it reactivates one. */
  lemma CountMeans(passes: seq<Pass>, p: Pass, i: nat, to: PassStatus, event: nat, now: int)
    ensures CountActive([], event, now) == 0
    ensures CountActive(passes + [p], event, now) == CountActive(passes, event, now)
      + (if p.event == event && p.status == Active && now < p.until then 1 else 0)
    ensures i < |passes| ==>
      var q := passes[i];
      CountActive(passes[i := q.(status := to)], event, now) == CountActive(passes, event, now)
        + (if q.event != event || q.until <= now || (q.status == Active) == (to == Active) then 0
           else if to == Active then 1 else -1)
  {
    assert (passes + [p])[..|passes|] == passes;
    if i < |passes| { CountUpdate(passes, i, passes[i].(status := to), event, now); }
  }

  // ---------------------------------------------------------------- interleavings

  /** A pass-covered booking. */
  datatype Seat = Seat(pass: nat, live: bool)

  /** A request that has read its booking as live but not yet cancelled it. */
  datatype Pc = Idle | Cancelling(seat: nat)

  datatype World = World(passes: seq<Pass>, seats: seq<Seat>, requests: seq<Pc>, now: int)

  datatype Step =
    | Buy(pass: Pass)
    | Reserve(passId: nat, occurrence: int)
    | ReadSeat(request: nat, seat: nat)
    | CancelSeat(request: nat)
    | Expire(event: nat, user: nat)
    | SetStatus(passId: nat, to: PassStatus)
    | Tick(elapsed: nat)

  /** A pass as it is sold: nothing used yet. */
  predicate FreshPass(p: Pass) { p.used == 0 && p.consumed == p.released == 0 }

  predicate Cancels(s: World, w: nat) {
    && w < |s.requests| && s.requests[w].Cancelling? && s.requests[w].seat < |s.seats|
    && s.seats[s.requests[w].seat].pass < |s.passes|
  }

  /** Reserving spends the session and books the seat in one transaction; cancelling frees the
      seat and releases the session in one transaction, without looking at the seat again. */
  function Apply(s: World, step: Step): World {
    match step
    case Buy(p) => if FreshPass(p) then s.(passes := s.passes + [p]) else s
    case Reserve(i, occurrence) =>
      if i < |s.passes| then
        match Consume(s.passes[i], occurrence)
        case Some(p) => s.(passes := s.passes[i := p], seats := s.seats + [Seat(i, true)])
        case None => s
      else
        s
    case ReadSeat(w, k) =>
      if w < |s.requests| && s.requests[w].Idle? && k < |s.seats| && s.seats[k].live
      then s.(requests := s.requests[w := Cancelling(k)]) else s
    case CancelSeat(w) =>
      if Cancels(s, w) then
        var k := s.requests[w].seat;
        var i := s.seats[k].pass;
        s.(passes := s.passes[i := Release(s.passes[i])], seats := s.seats[k := s.seats[k].(live := false)],
           requests := s.requests[w := Idle])
      else
        s
    case Expire(event, user) => s.(passes := Lapsed(s.passes, event, user, s.now))
    case SetStatus(i, to) => if i < |s.passes| then s.(passes := s.passes[i := s.passes[i].(status := to)]) else s
    case Tick(elapsed) => s.(now := s.now + elapsed)
  }

  function Run(s: World, steps: seq<Step>): World {
    if steps == [] then s else Apply(Run(s, steps[..|steps| - 1]), steps[|steps| - 1])
  }

  /** The counter stays within the pass and never below what was spent less what was handed
      back. */
  predicate Balanced(p: Pass) {
    && 0 <= p.used && (p.included.Some? ==> p.used <= p.included.value)
    && p.consumed - p.released <= p.used
  }

  ghost predicate AllBalanced(s: World) {
    forall i :: 0 <= i < |s.passes| ==> Balanced(s.passes[i])
  }

  lemma StepBalanced(s: World, step: Step)
    requires AllBalanced(s)
    ensures AllBalanced(Apply(s, step))
  {
    forall i | 0 <= i < |Apply(s, step).passes| ensures Balanced(Apply(s, step).passes[i]) {
      assert i < |s.passes| ==> Balanced(s.passes[i]);
    }
  }

  /** Over every interleaving of consume, release, expire and refund 0 <= used <= included. */
  lemma {:induction false} UsedStaysWithin(s: World, steps: seq<Step>)
    requires AllBalanced(s)
    ensures AllBalanced(Run(s, steps))
    ensures forall p :: p in Run(s, steps).passes ==>
      0 <= p.used && (p.included.Some? ==> p.used <= p.included.value)
  {
    if steps != [] {
      UsedStaysWithin(s, steps[..|steps| - 1]);
      StepBalanced(Run(s, steps[..|steps| - 1]), steps[|steps| - 1]);
    }
  }

  /** The counter of pass `i` is what was spent less what was handed back. */
  predicate Exact(s: World, i: nat) {
    i < |s.passes| ==> s.passes[i].used == s.passes[i].consumed - s.passes[i].released
  }

  /** If the step hands a session of pass `i` back, one was spent before that had not been
      handed back. */
  predicate AnswersConsume(s: World, step: Step, i: nat) {
    step.CancelSeat? && Cancels(s, step.request) && s.seats[s.requests[step.request].seat].pass == i ==>
      s.passes[i].released < s.passes[i].consumed
  }

  ghost predicate ReleasesAnswer(s: World, steps: seq<Step>, i: nat)
    decreases |steps|
  {
    steps == [] ||
    var front := steps[..|steps| - 1];
    ReleasesAnswer(s, front, i) && AnswersConsume(Run(s, front), steps[|steps| - 1], i)
  }

  lemma ExactStepIff(s: World, step: Step, i: nat)
    requires AllBalanced(s)
    ensures Exact(Apply(s, step), i) <==> Exact(s, i) && AnswersConsume(s, step, i)
  {
    if i < |s.passes| { assert Balanced(s.passes[i]); }
  }

  /** The counter is consumes minus releases exactly when every release so far answered an
      earlier consume; once one did not, the two never agree again. */
  lemma {:induction false} UsedExactIff(s: World, steps: seq<Step>, i: nat)
    requires AllBalanced(s) && Exact(s, i)
    ensures Exact(Run(s, steps), i) <==> ReleasesAnswer(s, steps, i)
  {
    if steps != [] {
      UsedExactIff(s, steps[..|steps| - 1], i);
      UsedStaysWithin(s, steps[..|steps| - 1]);
      ExactStepIff(Run(s, steps[..|steps| - 1]), steps[|steps| - 1], i);
    }
  }

  /** A free request takes up exactly the cancellation of a live seat, and a pass is sold exactly
      when nothing of it has been used. */
  lemma StartsIff(s: World, w: nat, k: nat, p: Pass)
    requires w < |s.requests| && k < |s.seats|
    ensures Apply(s, ReadSeat(w, k))
      == if s.requests[w] == Idle && s.seats[k].live then s.(requests := s.requests[w := Cancelling(k)]) else s
    ensures Apply(s, Buy(p)).passes
      == if p.used == 0 && p.consumed == 0 && p.released == 0 then s.passes + [p] else s.passes
  {
  }

  // ---------------------------------------------------------------- seats against the counter

  function LiveColumn(seats: seq<Seat>, pass: nat): seq<int> {
    seq(|seats|, i requires 0 <= i < |seats| => if seats[i].pass == pass && seats[i].live then 1 else 0)
  }

  function LiveSeats(s: World, pass: nat): int {
    Sum(LiveColumn(s.seats, pass))
  }

  /** Every pass has used exactly the seats it holds. */
  ghost predicate Matched(s: World) {
    forall i :: 0 <= i < |s.passes| ==> s.passes[i].used == LiveSeats(s, i)
  }

  ghost predicate SeatsOk(s: World) {
    forall k :: 0 <= k < |s.seats| ==> s.seats[k].pass < |s.passes|
  }

  /** The seat about to be cancelled is still live, or there is nothing left to release. */
  predicate FirstCancel(s: World, step: Step) {
    step.CancelSeat? && Cancels(s, step.request) ==>
      var seat := s.seats[s.requests[step.request].seat];
      seat.live || s.passes[seat.pass].used == 0
  }

  lemma LiveAppend(s: World, seat: Seat, pass: nat)
    ensures Sum(LiveColumn(s.seats + [seat], pass))
      == LiveSeats(s, pass) + (if seat.pass == pass && seat.live then 1 else 0)
  {
    var x := if seat.pass == pass && seat.live then 1 else 0;
    assert LiveColumn(s.seats + [seat], pass) == LiveColumn(s.seats, pass) + [x];
    SumAppend(LiveColumn(s.seats, pass), x);
  }

  lemma LiveUpdate(s: World, k: nat, seat: Seat, pass: nat)
    requires k < |s.seats| && seat.pass == s.seats[k].pass
    ensures Sum(LiveColumn(s.seats[k := seat], pass)) == LiveSeats(s, pass)
      + (if seat.pass == pass then (if seat.live then 1 else 0) - (if s.seats[k].live then 1 else 0) else 0)
  {
    var x := if seat.pass == pass && seat.live then 1 else 0;
    assert LiveColumn(s.seats[k := seat], pass) == LiveColumn(s.seats, pass)[k := x];
    SumUpdate(LiveColumn(s.seats, pass), k, x);
  }

  lemma NoSeatsYet(s: World, pass: nat)
    requires SeatsOk(s) && pass >= |s.passes|
    ensures LiveSeats(s, pass) == 0
  {
    SumZero(LiveColumn(s.seats, pass));
  }

  lemma CancelMatches(s: World, w: nat)
    requires AllBalanced(s) && SeatsOk(s) && Matched(s) && Cancels(s, w)
    ensures Matched(Apply(s, CancelSeat(w))) <==> FirstCancel(s, CancelSeat(w))
  {
    var k := s.requests[w].seat;
    var s' := Apply(s, CancelSeat(w));
    forall i | 0 <= i < |s.passes|
      ensures LiveSeats(s', i) == LiveSeats(s, i) - (if s.seats[k].pass == i && s.seats[k].live then 1 else 0)
    {
      LiveUpdate(s, k, s.seats[k].(live := false), i);
    }
    SomeLive(s, k);
    assert s'.passes[s.seats[k].pass].used == LiveSeats(s', s.seats[k].pass) <==> FirstCancel(s, CancelSeat(w));
  }

  /** A live seat is counted. */
  lemma SomeLive(s: World, k: nat)
    requires k < |s.seats|
    ensures s.seats[k].live ==> LiveSeats(s, s.seats[k].pass) >= 1
  {
    SumNonNegative(LiveColumn(s.seats, s.seats[k].pass));
    assert s.seats[k].live ==> LiveColumn(s.seats, s.seats[k].pass)[k] == 1;
  }

  lemma OtherStepMatches(s: World, step: Step)
    requires SeatsOk(s) && Matched(s) && !step.CancelSeat?
    ensures Matched(Apply(s, step))
  {
    var s' := Apply(s, step);
    forall i | 0 <= i < |s'.passes| ensures s'.passes[i].used == LiveSeats(s', i) {
      if step.Buy? {
        if i == |s.passes| { NoSeatsYet(s, i); }
      } else if step.Reserve? {
        LiveAppend(s, Seat(step.passId, true), i);
      }
    }
  }

  ghost predicate MatchedThroughout(s: World, steps: seq<Step>)
    decreases |steps|
  {
    Matched(Run(s, steps)) && (steps == [] || MatchedThroughout(s, steps[..|steps| - 1]))
  }

  ghost predicate OnlyFirstCancels(s: World, steps: seq<Step>)
    decreases |steps|
  {
    steps == [] ||
    (OnlyFirstCancels(s, steps[..|steps| - 1]) && FirstCancel(Run(s, steps[..|steps| - 1]), steps[|steps| - 1]))
  }

  lemma StepSeatsOk(s: World, step: Step)
    requires SeatsOk(s)
    ensures SeatsOk(Apply(s, step))
  {
  }

  /** Sessions used and seats held agree throughout a run exactly when no cancellation releases
      a session for a seat another request has already cancelled. */
  lemma {:induction false} SeatsMatchIff(s: World, steps: seq<Step>)
    requires AllBalanced(s) && SeatsOk(s) && Matched(s)
    ensures SeatsOk(Run(s, steps))
    ensures MatchedThroughout(s, steps) <==> OnlyFirstCancels(s, steps)
  {
    if steps != [] {
      var front, last := steps[..|steps| - 1], steps[|steps| - 1];
      SeatsMatchIff(s, front);
      UsedStaysWithin(s, front);
      var m := Run(s, front);
      StepSeatsOk(m, last);
      if MatchedThroughout(s, front) {
        assert Matched(m);
        if last.CancelSeat? {
          if Cancels(m, last.request) { CancelMatches(m, last.request); }
        } else {
          OtherStepMatches(m, last);
        }
      }
    }
  }

  /** Two requests cancelling one seat of a two-session pass hand back two sessions for one:
      the guest then holds three seats on a pass for two. */
  lemma DoubleCancelOverbooks(p: Pass, t: int)
    requires FreshPass(p) && p.included == Some(2) && p.status == Active && p.from <= t <= p.until
    ensures var s := World([p], [], [Idle, Idle], t);
      var booked := Apply(Apply(s, Reserve(0, t)), Reserve(0, t));
      var racing := Apply(Apply(booked, ReadSeat(0, 0)), ReadSeat(1, 0));
      var freed := Apply(Apply(racing, CancelSeat(0)), CancelSeat(1));
      var again := Apply(Apply(freed, Reserve(0, t)), Reserve(0, t));
      again.passes[0].used == 2 && LiveSeats(again, 0) == 3
  {
    var s := World([p], [], [Idle, Idle], t);
    var booked := Apply(Apply(s, Reserve(0, t)), Reserve(0, t));
    var racing := Apply(Apply(booked, ReadSeat(0, 0)), ReadSeat(1, 0));
    assert racing.requests == [Cancelling(0), Cancelling(0)];
    var freed := Apply(Apply(racing, CancelSeat(0)), CancelSeat(1));
    assert freed.seats == [Seat(0, false), Seat(0, true)] && freed.passes[0].used == 0;
    var again := Apply(Apply(freed, Reserve(0, t)), Reserve(0, t));
    assert LiveColumn(again.seats, 0) == (([] + [0]) + [1]) + [1] + [1];
    SumAppend([], 0);
    SumAppend([] + [0], 1);
    SumAppend([] + [0] + [1], 1);
    SumAppend([] + [0] + [1] + [1], 1);
  }

  // ---------------------------------------------------------------- the repository

  class PassDesk {
    var passes: seq<Pass>

    constructor ()
      ensures passes == []
    {
      passes := [];
    }

    method ConsumeSession(id: nat, occurrence: int) returns (ok: bool)
      modifies this
      ensures ok <==> id < old(|passes|) && IsUsable(old(passes)[id], occurrence)
      ensures ok ==> passes == old(passes)[id := Consume(old(passes)[id], occurrence).value]
      ensures ok ==>
        var p := old(passes)[id];
        passes == old(passes)[id := p.(used := p.used + 1, consumed := p.consumed + 1)]
      ensures !ok ==> passes == old(passes)
    {
      if id >= |passes| { return false; }
      var p := passes[id];
      if p.status == Active && p.from <= occurrence <= p.until && (p.included.None? || p.used < p.included.value) {
        passes := passes[id := p.(used := p.used + 1, consumed := p.consumed + 1)];
        return true;
      }
      ok := false;
    }

    method ReleaseSession(id: nat)
      modifies this
      ensures id < old(|passes|) ==> passes == old(passes)[id := Release(old(passes)[id])]
      ensures id < old(|passes|) ==>
        var p := old(passes)[id];
        passes == old(passes)[id := p.(used := if p.used > 1 then p.used - 1 else 0, released := p.released + 1)]
      ensures id >= old(|passes|) ==> passes == old(passes)
    {
      if id < |passes| {
        var p := passes[id];
        var used := p.used - 1;
        if used < 0 { used := 0; }
        passes := passes[id := p.(used := used, released := p.released + 1)];
      }
    }

    method UpdateStatus(id: nat, to: PassStatus)
      modifies this
      ensures id < old(|passes|) ==> passes == old(passes)[id := old(passes)[id].(status := to)]
      ensures id >= old(|passes|) ==> passes == old(passes)
    {
      if id < |passes| {
        passes := passes[id := passes[id].(status := to)];
      }
    }

    method ExpireLapsed(event: nat, user: nat, now: int)
      modifies this
      ensures passes == Lapsed(old(passes), event, user, now)
      ensures |passes| == old(|passes|) && forall i :: 0 <= i < |passes| ==>
        var p := old(passes)[i];
        passes[i] == if p.event == event && p.user == user && p.status == Active && now >= p.until
                     then p.(status := Expired) else p
      ensures forall counted: nat, later :: now <= later ==>
        CountActive(passes, counted, later) == CountActive(old(passes), counted, later)
    {
      for i := 0 to |passes|
        invariant |passes| == old(|passes|)
        invariant forall k :: 0 <= k < i ==> passes[k] == Lapse(old(passes)[k], event, user, now)
        invariant forall k :: i <= k < |passes| ==> passes[k] == old(passes)[k]
      {
        var p := passes[i];
        if p.event == event && p.user == user && p.status == Active && p.until <= now {
          passes := passes[i := p.(status := Expired)];
        }
      }
      assert passes == Lapsed(old(passes), event, user, now);
      forall counted: nat, later | now <= later
        ensures CountActive(passes, counted, later) == CountActive(old(passes), counted, later)
      {
        ExpireKeepsCount(old(passes), event, user, now, counted, later);
      }
    }

    method Count(event: nat, now: int) returns (n: nat)
      ensures n == CountActive(passes, event, now)
    {
      n := 0;
      for i := 0 to |passes|
        invariant n == CountActive(passes[..i], event, now)
      {
        assert passes[..i + 1][..i] == passes[..i];
        if passes[i].event == event && passes[i].status == Active && passes[i].until > now {
          n := n + 1;
        }
      }
      assert passes[..|passes|] == passes;
    }
  }
}
