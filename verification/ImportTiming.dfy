/** Why the start-up sweep leaves a job alone while a live worker walks it, and for how many
    result writes in a row that stays true when they do not reach the job. */
module ImportTiming {
  import opened ImportTables

  /** Seconds a row's attempt, and then its result write, may take. */
  const ATTEMPT_LIMIT := 30
  const WRITE_LIMIT := 15
  const ROW_LIMIT := ATTEMPT_LIMIT + WRITE_LIMIT

  datatype Phase = Off | Listing | Attempting | Writing

  /** One job under one live worker. `since` is when the phase began and `unlanded` counts
      the result writes in a row that did not touch the job: failed, or on a resolved row. */
  datatype Clock = Clock(now: int, updatedAt: int, phase: Phase, since: int, unlanded: nat)

  datatype Step =
    | Begin
    | Tick(seconds: nat)
    | Listed
    | Attempted
    | Written(lands: bool)
    | Stop
    | Touch   // any other statement that updates the job

  function Limit(phase: Phase, listing: nat): int
    requires phase != Off
  {
    match phase case Listing => listing case Attempting => ATTEMPT_LIMIT case Writing => WRITE_LIMIT
  }

  function Apply(c: Clock, step: Step, listing: nat): Clock {
    match step
    case Begin => if c.phase == Off then Clock(c.now, c.now, Listing, c.now, 0) else c
    case Tick(d) =>
      if c.phase == Off || c.now + d <= c.since + Limit(c.phase, listing) then c.(now := c.now + d) else c
    case Listed => if c.phase == Listing then c.(phase := Attempting, since := c.now) else c
    case Attempted => if c.phase == Attempting then c.(phase := Writing, since := c.now) else c
    case Written(lands) =>
      if c.phase != Writing then c
      else if lands then Clock(c.now, c.now, Attempting, c.now, 0)
      else c.(phase := Attempting, since := c.now, unlanded := c.unlanded + 1)
    case Stop => c.(phase := Off)
    case Touch => c.(updatedAt := c.now)
  }

  function Run(c: Clock, steps: seq<Step>, listing: nat): Clock {
    if steps == [] then c else Apply(Run(c, steps[..|steps| - 1], listing), steps[|steps| - 1], listing)
  }

  /** How long the job can have gone without an update when the current phase began. */
  function Arrears(c: Clock, listing: nat): int {
    match c.phase
    case Off => 0
    case Listing => 0
    case Attempting => listing + ROW_LIMIT * c.unlanded
    case Writing => listing + ROW_LIMIT * c.unlanded + ATTEMPT_LIMIT
  }

  ghost predicate Inv(c: Clock, listing: nat) {
    c.phase != Off ==>
      && c.since <= c.now <= c.since + Limit(c.phase, listing)
      && c.since - c.updatedAt <= Arrears(c, listing)
      && (c.phase == Listing ==> c.unlanded == 0)
  }

  lemma {:induction false} RunInv(c: Clock, steps: seq<Step>, listing: nat)
    requires c.phase == Off
    ensures Inv(Run(c, steps, listing), listing)
  {
    if steps != [] {
      RunInv(c, steps[..|steps| - 1], listing);
    }
  }

  /** At every instant of a walk the job was updated within the listing time plus one row's
      time for each unlanded write and one for the row in hand. */
  lemma GapBounded(c: Clock, steps: seq<Step>, listing: nat)
    requires c.phase == Off
    ensures var e := Run(c, steps, listing);
      e.phase != Off ==> e.now - e.updatedAt <= listing + ROW_LIMIT * (e.unlanded + 1)
  {
    RunInv(c, steps, listing);
  }

  /** The worst walk: full listing, `k` full rows whose writes do not land, one full row. */
  function SlowRows(k: nat): seq<Step> {
    if k == 0 then [] else SlowRows(k - 1) + [Tick(ATTEMPT_LIMIT), Attempted, Tick(WRITE_LIMIT), Written(false)]
  }

  lemma Snoc(c: Clock, steps: seq<Step>, x: Step, listing: nat)
    ensures Run(c, steps + [x], listing) == Apply(Run(c, steps, listing), x, listing)
  {
    assert (steps + [x])[..|steps|] == steps;
  }

  /** Four steps, each known to lead from one clock to the next. */
  lemma RunFour(c: Clock, steps: seq<Step>, more: seq<Step>, clocks: seq<Clock>, listing: nat)
    requires |more| == 4 && |clocks| == 5 && Run(c, steps, listing) == clocks[0]
    requires forall k :: 0 <= k < 4 ==> Apply(clocks[k], more[k], listing) == clocks[k + 1]
    ensures Run(c, steps + more, listing) == clocks[4]
  {
    assert steps + more[..0] == steps;
    for k := 0 to 4
      invariant Run(c, steps + more[..k], listing) == clocks[k]
    {
      Snoc(c, steps + more[..k], more[k], listing);
      assert steps + more[..k + 1] == steps + more[..k] + [more[k]];
    }
    assert more[..4] == more;
  }

  lemma SlowRow(c: Clock, steps: seq<Step>, e: Clock, listing: nat)
    requires Run(c, steps, listing) == e && e.phase == Attempting && e.since == e.now
    ensures Run(c, steps + [Tick(ATTEMPT_LIMIT), Attempted, Tick(WRITE_LIMIT), Written(false)], listing)
         == Clock(e.now + ROW_LIMIT, e.updatedAt, Attempting, e.now + ROW_LIMIT, e.unlanded + 1)
  {
    var e1 := e.(now := e.now + ATTEMPT_LIMIT);
    var e2 := e1.(phase := Writing, since := e1.now);
    var e3 := e2.(now := e2.now + WRITE_LIMIT);
    var e4 := e3.(phase := Attempting, since := e3.now, unlanded := e3.unlanded + 1);
    RunFour(c, steps, [Tick(ATTEMPT_LIMIT), Attempted, Tick(WRITE_LIMIT), Written(false)], [e, e1, e2, e3, e4],
            listing);
  }

  lemma {:induction false} SlowRowsRun(c: Clock, k: nat, listing: nat)
    requires c.phase == Attempting && c.since == c.now
    ensures var e := Run(c, SlowRows(k), listing);
      e == Clock(c.now + ROW_LIMIT * k, c.updatedAt, Attempting, c.now + ROW_LIMIT * k, c.unlanded + k)
  {
    if k > 0 {
      SlowRowsRun(c, k - 1, listing);
      SlowRow(c, SlowRows(k - 1), Run(c, SlowRows(k - 1), listing), listing);
    }
  }

  /** A walk in which at most `k` writes in a row fail to land can be found stale by the sweep
      exactly when listing plus k + 1 full rows take longer than the sweep's age. */
  lemma SweptLiveIff(listing: nat, k: nat)
    ensures (exists c: Clock, steps: seq<Step> ::
               && c.phase == Off
               && var e := Run(c, steps, listing);
                  e.phase != Off && e.unlanded <= k && e.updatedAt < e.now - STALE_JOB_AGE)
            <==> STALE_JOB_AGE < listing + ROW_LIMIT * (k + 1)
  {
    if c: Clock, steps: seq<Step> :|
      && c.phase == Off
      && var e := Run(c, steps, listing);
         e.phase != Off && e.unlanded <= k && e.updatedAt < e.now - STALE_JOB_AGE
    {
      GapBounded(c, steps, listing);
    }
    if STALE_JOB_AGE < listing + ROW_LIMIT * (k + 1) {
      SlowWalk(listing, k);
    }
  }

  lemma {:induction false} RunJoin(c: Clock, a: seq<Step>, b: seq<Step>, listing: nat)
    ensures Run(c, a + b, listing) == Run(Run(c, a, listing), b, listing)
    decreases |b|
  {
    if b == [] {
      assert a + b == a;
    } else {
      var front := b[..|b| - 1];
      RunJoin(c, a, front, listing);
      assert (a + b)[..|a + b| - 1] == a + front && (a + b)[|a + b| - 1] == b[|b| - 1];
    }
  }

  lemma Opening(listing: nat)
    ensures Run(Clock(0, 0, Off, 0, 0), [Begin, Tick(listing), Listed, Tick(0)], listing)
      == Clock(listing, 0, Attempting, listing, 0)
  {
    var c := Clock(0, 0, Off, 0, 0);
    var steps := [Begin, Tick(listing), Listed, Tick(0)];
    var end := Clock(listing, 0, Attempting, listing, 0);
    RunFour(c, [], steps, [c, Clock(0, 0, Listing, 0, 0), Clock(listing, 0, Listing, 0, 0), end, end], listing);
    assert [] + steps == steps;
  }

  lemma Closing(c: Clock, steps: seq<Step>, listing: nat)
    requires var e := Run(c, steps, listing); e.phase == Attempting && e.since == e.now
    ensures var e := Run(c, steps, listing);
      var e' := Run(c, steps + [Tick(ATTEMPT_LIMIT), Attempted, Tick(WRITE_LIMIT), Tick(0)], listing);
      e'.phase == Writing && e'.unlanded == e.unlanded && e'.now == e.now + ROW_LIMIT && e'.updatedAt == e.updatedAt
  {
    var e0 := Run(c, steps, listing);
    var e1 := e0.(now := e0.now + ATTEMPT_LIMIT);
    var e2 := e1.(phase := Writing, since := e1.now);
    var e3 := e2.(now := e2.now + WRITE_LIMIT);
    RunFour(c, steps, [Tick(ATTEMPT_LIMIT), Attempted, Tick(WRITE_LIMIT), Tick(0)], [e0, e1, e2, e3, e3], listing);
  }

  lemma SlowWalk(listing: nat, k: nat)
    ensures exists c: Clock, steps: seq<Step> ::
      && c.phase == Off
      && var e := Run(c, steps, listing);
         e.phase != Off && e.unlanded <= k && e.now - e.updatedAt == listing + ROW_LIMIT * (k + 1)
  {
    var c, opening := Clock(0, 0, Off, 0, 0), [Begin, Tick(listing), Listed, Tick(0)];
    Opening(listing);
    SlowRowsRun(Run(c, opening, listing), k, listing);
    RunJoin(c, opening, SlowRows(k), listing);
    Closing(c, opening + SlowRows(k), listing);
  }

  /** With every write landing and the listing within 255 seconds, a live job is never claimed. */
  lemma LiveJobNeverClaimed(c: Clock, steps: seq<Step>, listing: nat, job: Job)
    requires c.phase == Off && listing <= 255
    requires var e := Run(c, steps, listing); e.phase != Off && e.unlanded == 0 && job.updatedAt == e.updatedAt
    ensures !Stale(job, Run(c, steps, listing).now)
  {
    GapBounded(c, steps, listing);
  }
}
