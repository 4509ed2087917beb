/** The weekly automatic payout: one key per host and ISO week, a Tuesday window polled by an
    hourly ticker, and the keyed withdrawal behind it, raced by several processes. */
module AutoPayout {
  import opened Common
  import opened Calendar

  const START_HOUR := 10
  const MINIMUM := 10000

  // ---------------------------------------------------------------- the key

  function YearWeek(day: int): string {
    Signed(IsoYear(day), 1) + "-W" + PadDec(IsoWeek(day), 2)
  }

  function PayoutKey(host: Uuid, now: int): string {
    "auto_payout_" + host + "_" + YearWeek(IstDay(now))
  }

  /** The same Monday-to-Sunday week in Indian Standard Time. */
  predicate SameWeek(t: int, u: int) { WeekIndex(IstDay(t)) == WeekIndex(IstDay(u)) }

  lemma YearWeekInjective(m: int, n: int)
    requires YearWeek(m) == YearWeek(n)
    ensures WeekIndex(m) == WeekIndex(n)
  {
    PeelField(Signed(IsoYear(m), 1), Signed(IsoYear(n), 1), "-W", IsoWeek(m), IsoWeek(n));
    SignedInjective(IsoYear(m), IsoYear(n), 1);
    IsoWeekIdentifiesWeek(m, n);
  }

  lemma SplitKey(prefix: string, host: Uuid, other: Uuid, x: string, y: string)
    requires prefix + host + "_" + x == prefix + other + "_" + y
    ensures host == other && x == y
  {
    var a, b, n := prefix + host + "_" + x, prefix + other + "_" + y, |prefix|;
    assert host == a[n..n + 36] && other == b[n..n + 36];
    assert x == a[n + 37..] && y == b[n + 37..];
  }

  /** Two keys are equal exactly when they are of one host and one IST week. */
  lemma KeysEqualIff(host: Uuid, t: int, other: Uuid, u: int)
    ensures PayoutKey(host, t) == PayoutKey(other, u) <==> host == other && SameWeek(t, u)
  {
    if PayoutKey(host, t) == PayoutKey(other, u) {
      SplitKey("auto_payout_", host, other, YearWeek(IstDay(t)), YearWeek(IstDay(u)));
      YearWeekInjective(IstDay(t), IstDay(u));
    }
    IsoWeekIdentifiesWeek(IstDay(t), IstDay(u));
  }

  // ---------------------------------------------------------------- the Tuesday window

  predicate AutoPayoutDue(now: int) {
    Weekday(IstDay(now)) == 1 && IstHour(now) >= START_HOUR
  }

  /** The instant the window of a week opens: Tuesday at ten, Indian time. */
  function Opens(week: int): int {
    (7 * week - 4 - EPOCH_DAY) * DAY - IST + START_HOUR * 3600
  }

  const WINDOW := 14 * 3600

  /** The window is the fourteen hours from Tuesday ten o'clock to midnight, once a week. */
  lemma DueIff(now: int)
    ensures AutoPayoutDue(now) <==> Opens(WeekIndex(IstDay(now))) <= now < Opens(WeekIndex(IstDay(now))) + WINDOW
  {
    var n := IstDay(now);
    var second := (now + IST) % DAY;
    assert now == (n - EPOCH_DAY) * DAY - IST + second && 0 <= second < DAY;
    assert n == 7 * WeekIndex(n) - 5 + Weekday(n);
    var w := Weekday(n);
    assert now - Opens(WeekIndex(n)) == (w - 1) * DAY + second - START_HOUR * 3600;
  }

  /** The clock of the window: in the week of 2 January 2024 it opens on that Tuesday at ten in
      India, 04:30 UTC. */
  lemma KnownWindow()
    ensures AutoPayoutDue(1704169800) && !AutoPayoutDue(1704169799)
    ensures AutoPayoutDue(1704169800 + 14 * 3600 - 1) && !AutoPayoutDue(1704169800 + 14 * 3600)
  {
  }

  /** An hourly ticker cannot miss a window, whenever it was started before it. */
  lemma TickerHitsWindow(start: int, week: int)
    requires start <= Opens(week)
    ensures exists k: nat :: AutoPayoutDue(start + 3600 * k) && WeekIndex(IstDay(start + 3600 * k)) == week
  {
    var k := (Opens(week) - start + 3599) / 3600;
    var t := start + 3600 * k;
    assert Opens(week) <= t < Opens(week) + 3600;
    var local := t + IST;
    assert (7 * week - 4 - EPOCH_DAY) * DAY + START_HOUR * 3600 <= local < (7 * week - 4 - EPOCH_DAY) * DAY + DAY;
    InDay(local, 7 * week - 4 - EPOCH_DAY);
    assert IstDay(t) == 7 * week - 4 && WeekIndex(IstDay(t)) == week;
    DueIff(t);
    assert AutoPayoutDue(start + 3600 * k);
  }

  lemma InDay(local: int, day: int)
    requires day * DAY <= local < day * DAY + DAY
    ensures local / DAY == day
  {
  }

  // ---------------------------------------------------------------- the bank account

  datatype MethodKind = Bank | Upi

  datatype PayoutMethod = PayoutMethod(id: nat, kind: MethodKind, verified: bool, primary: bool)

  predicate Payable(m: PayoutMethod) { m.kind == Bank && m.verified }

  /** A verified primary bank account wins, the first such; otherwise the first verified bank
      account; otherwise none. */
  method PickBankMethod(methods: seq<PayoutMethod>) returns (picked: Option<nat>)
    ensures picked.Some? ==> picked.value < |methods| && Payable(methods[picked.value])
    ensures picked.None? <==> forall i :: 0 <= i < |methods| ==> !Payable(methods[i])
    ensures forall i :: 0 <= i < |methods| ==> (Payable(methods[i]) <==> methods[i].kind == Bank && methods[i].verified)
    ensures picked.Some? && methods[picked.value].primary ==>
      forall i :: 0 <= i < picked.value ==> !(Payable(methods[i]) && methods[i].primary)
    ensures picked.Some? && !methods[picked.value].primary ==>
      && (forall i :: 0 <= i < |methods| ==> !(Payable(methods[i]) && methods[i].primary))
      && (forall i :: 0 <= i < picked.value ==> !Payable(methods[i]))
  {
    var fallback: Option<nat> := None;
    for i := 0 to |methods|
      invariant forall k :: 0 <= k < i ==> !(Payable(methods[k]) && methods[k].primary)
      invariant fallback.None? ==> forall k :: 0 <= k < i ==> !Payable(methods[k])
      invariant fallback.Some? ==>
        && fallback.value < i && Payable(methods[fallback.value])
        && forall k :: 0 <= k < fallback.value ==> !Payable(methods[k])
    {
      var m := methods[i];
      if m.kind != Bank || !m.verified { continue; }
      if m.primary { return Some(i); }
      if fallback.None? { fallback := Some(i); }
    }
    picked := fallback;
  }

  // ---------------------------------------------------------------- racing withdrawals

  /** The ledger entry written under a payout's key, and how far it got: a payment row under
      the same key, calls to the provider, and transfers the provider has taken on and not
      since reported failed or reversed. */
  datatype Slip = Slip(host: Uuid, at: int, key: string, amount: int, recorded: bool, calls: nat, sent: nat)

  /** A process running one host's payout: past the checks, holding the entry it inserted, or
      holding the payment row it created. */
  datatype Pc = Idle | Ready(host: Uuid, at: int, amount: int) | Logged(slip: nat) | Paying(slip: nat)

  datatype World = World(slips: seq<Slip>, workers: seq<Pc>)

  datatype Step =
    | Begin(worker: nat, host: Uuid, at: int, available: int)
    | PostEntry(worker: nat)
    | RecordPayment(worker: nat, lands: bool)
    | Transfer(worker: nat, accepted: bool)
    | Report(worker: nat, slip: nat, paid: bool)
    | Crash(worker: nat)

  predicate Taken(slips: seq<Slip>, key: string) {
    exists i :: 0 <= i < |slips| && slips[i].key == key
  }

  predicate Paid(slips: seq<Slip>, key: string) {
    exists i :: 0 <= i < |slips| && slips[i].recorded && slips[i].key == key
  }

  /** No payout of the host's exists for the week of `now`. */
  predicate Unpaid(slips: seq<Slip>, host: Uuid, now: int) {
    forall i :: 0 <= i < |slips| ==> slips[i].host != host || !SameWeek(slips[i].at, now)
  }

  /** The provider was asked for the transfer. */
  function Called(slip: Slip, accepted: bool): Slip {
    slip.(calls := slip.calls + 1, sent := slip.sent + (if accepted then 1 else 0))
  }

  /** One step of RequestWithdrawal under the automatic key, or a process that hears later, by
      webhook or by polling, what became of a transfer the provider was asked for. A request that finds its payment
      returns it; the entry's unique key refuses a second insert; each later step belongs to
      the process that won. When the payment row cannot be written or the provider refuses, the
      entry is balanced by a reversal and its key stays used. */
  function Apply(s: World, step: Step): World {
    if step.worker >= |s.workers| then s
    else
      var w, pc := step.worker, s.workers[step.worker];
      match step
      case Begin(_, host, at, available) =>
        var key := PayoutKey(host, at);
        if pc.Idle? && available >= MINIMUM && !(Taken(s.slips, key) && Paid(s.slips, key))
        then s.(workers := s.workers[w := Ready(host, at, available)]) else s
      case PostEntry(_) =>
        if !pc.Ready? then s
        else if Taken(s.slips, PayoutKey(pc.host, pc.at)) then s.(workers := s.workers[w := Idle])
        else
          World(s.slips + [Slip(pc.host, pc.at, PayoutKey(pc.host, pc.at), pc.amount, false, 0, 0)],
                s.workers[w := Logged(|s.slips|)])
      case RecordPayment(_, lands) =>
        if !pc.Logged? || pc.slip >= |s.slips| then s
        else if !lands then s.(workers := s.workers[w := Idle])
        else World(s.slips[pc.slip := s.slips[pc.slip].(recorded := true)], s.workers[w := Paying(pc.slip)])
      case Transfer(_, accepted) =>
        if pc.Paying? && pc.slip < |s.slips|
        then World(s.slips[pc.slip := Called(s.slips[pc.slip], accepted)], s.workers[w := Idle]) else s
      case Report(_, k, paid) =>
        if k < |s.slips| && s.slips[k].calls > 0
        then s.(slips := s.slips[k := s.slips[k].(sent := if paid then 1 else 0)]) else s
      case Crash(_) => s.(workers := s.workers[w := Idle])
  }

  function Run(s: World, steps: seq<Step>): World {
    if steps == [] then s else Apply(Run(s, steps[..|steps| - 1]), steps[|steps| - 1])
  }

  predicate Holds(pc: Pc) { pc.Logged? || pc.Paying? }

  predicate SlipOk(slip: Slip) {
    slip.sent <= slip.calls <= 1 && slip.amount >= MINIMUM && (slip.calls > 0 ==> slip.recorded)
  }

  ghost predicate WeeksApart(slips: seq<Slip>) {
    forall i, k :: 0 <= i < k < |slips| ==> slips[i].host != slips[k].host || !SameWeek(slips[i].at, slips[k].at)
  }

  ghost predicate SlipsOk(slips: seq<Slip>) {
    WeeksApart(slips) && forall i :: 0 <= i < |slips| ==> SlipOk(slips[i])
  }

  ghost predicate HolderOk(s: World, w: nat)
    requires w < |s.workers|
  {
    var pc := s.workers[w];
    && (pc.Ready? ==> pc.amount >= MINIMUM)
    && (Holds(pc) ==>
          && pc.slip < |s.slips| && s.slips[pc.slip].calls == 0 && s.slips[pc.slip].sent == 0
          && (pc.Logged? <==> !s.slips[pc.slip].recorded))
  }

  ghost predicate Apart(s: World, v: nat, w: nat)
    requires v < |s.workers| && w < |s.workers|
  {
    Holds(s.workers[v]) && Holds(s.workers[w]) ==> s.workers[v].slip != s.workers[w].slip
  }

  ghost predicate WorkersOk(s: World) {
    && (forall w: nat :: w < |s.workers| ==> HolderOk(s, w))
    && (forall v: nat, w: nat :: v < w < |s.workers| ==> Apart(s, v, w))
  }

  /** Every entry carries the key of its host and week. */
  ghost predicate KeysOk(slips: seq<Slip>) {
    forall i {:trigger slips[i].key} :: 0 <= i < |slips| ==> slips[i].key == PayoutKey(slips[i].host, slips[i].at)
  }

  ghost predicate Inv(s: World) { KeysOk(s.slips) && SlipsOk(s.slips) && WorkersOk(s) }

  /** A key nobody has used belongs to a host and week nobody has been paid for. */
  lemma UnpaidIffKeyFree(slips: seq<Slip>, host: Uuid, now: int)
    requires KeysOk(slips)
    ensures Unpaid(slips, host, now) <==> !Taken(slips, PayoutKey(host, now))
  {
    forall i | 0 <= i < |slips|
      ensures slips[i].key == PayoutKey(host, now) <==> slips[i].host == host && SameWeek(slips[i].at, now)
    {
      KeysEqualIff(slips[i].host, slips[i].at, host, now);
    }
  }

  lemma StepKeepsKeys(s: World, step: Step)
    requires KeysOk(s.slips)
    ensures KeysOk(Apply(s, step).slips)
  {
  }

  /** A new entry belongs to a host and week that had none. */
  lemma StepKeepsWeeks(s: World, step: Step)
    requires KeysOk(s.slips) && WeeksApart(s.slips)
    ensures WeeksApart(Apply(s, step).slips)
  {
    if step.PostEntry? && step.worker < |s.workers| && s.workers[step.worker].Ready? {
      UnpaidIffKeyFree(s.slips, s.workers[step.worker].host, s.workers[step.worker].at);
    }
  }

  lemma StepKeepsSlips(s: World, step: Step)
    requires Inv(s)
    ensures SlipsOk(Apply(s, step).slips)
  {
    StepKeepsWeeks(s, step);
    if step.worker < |s.workers| {
      assert HolderOk(s, step.worker);
    }
  }

  lemma HolderStaysOk(s: World, step: Step, w: nat)
    requires WorkersOk(s) && w < |s.workers|
    ensures |Apply(s, step).workers| == |s.workers| && HolderOk(Apply(s, step), w)
  {
    assert HolderOk(s, w);
    if step.worker < |s.workers| && step.worker != w {
      assert HolderOk(s, step.worker);
      assert if w < step.worker then Apart(s, w, step.worker) else Apart(s, step.worker, w);
    }
  }

  lemma HoldersStayApart(s: World, step: Step, v: nat, w: nat)
    requires WorkersOk(s) && v < w < |s.workers|
    ensures |Apply(s, step).workers| == |s.workers| && Apart(Apply(s, step), v, w)
  {
    assert HolderOk(s, v) && HolderOk(s, w) && Apart(s, v, w);
  }

  lemma StepKeepsWorkers(s: World, step: Step)
    requires WorkersOk(s)
    ensures WorkersOk(Apply(s, step))
  {
    var s' := Apply(s, step);
    forall w: nat | w < |s'.workers| ensures HolderOk(s', w) {
      HolderStaysOk(s, step, w);
    }
    forall v: nat, w: nat | v < w < |s'.workers| ensures Apart(s', v, w) {
      HoldersStayApart(s, step, v, w);
    }
  }

  lemma StepKeeps(s: World, step: Step)
    requires Inv(s)
    ensures Inv(Apply(s, step))
  {
    StepKeepsKeys(s, step);
    StepKeepsSlips(s, step);
    StepKeepsWorkers(s, step);
  }

  /** No payout yet and nobody at work is a start. */
  lemma StartInv(workers: nat)
    ensures Inv(World([], seq(workers, _ => Idle)))
  {
  }

  /** How many transfers a host received for the week of `t`. */
  function TransfersIn(slips: seq<Slip>, host: Uuid, t: int): nat {
    if slips == [] then 0
    else
      var last := slips[|slips| - 1];
      TransfersIn(slips[..|slips| - 1], host, t) + (if last.host == host && SameWeek(last.at, t) then last.sent else 0)
  }

  lemma {:induction false} AtMostOneTransfer(slips: seq<Slip>, host: Uuid, t: int)
    requires SlipsOk(slips)
    ensures TransfersIn(slips, host, t) <= 1
    ensures (forall i :: 0 <= i < |slips| ==> slips[i].host != host || !SameWeek(slips[i].at, t)) ==>
      TransfersIn(slips, host, t) == 0
  {
    if slips != [] {
      var front, last := slips[..|slips| - 1], slips[|slips| - 1];
      AtMostOneTransfer(front, host, t);
      if last.host == host && SameWeek(last.at, t) {
        forall i | 0 <= i < |front| ensures front[i].host != host || !SameWeek(front[i].at, t) {
          assert slips[i].host != last.host || !SameWeek(slips[i].at, last.at);
        }
      }
    }
  }

  /** Over every run of ticks, restarts and run-now calls by any number of processes, no host is
      sent more than one automatic transfer for a Monday-to-Sunday week, the provider is asked
      at most once for each, and never for less than the minimum. */
  lemma {:induction false} OncePerWeek(s: World, steps: seq<Step>, host: Uuid, t: int)
    requires Inv(s)
    ensures Inv(Run(s, steps))
    ensures TransfersIn(Run(s, steps).slips, host, t) <= 1
    ensures forall slip :: slip in Run(s, steps).slips ==> slip.calls <= 1 && slip.amount >= 10000
  {
    if steps != [] {
      OncePerWeek(s, steps[..|steps| - 1], host, t);
      StepKeeps(Run(s, steps[..|steps| - 1]), steps[|steps| - 1]);
    }
    AtMostOneTransfer(Run(s, steps).slips, host, t);
  }

  /** A process sets out to pay exactly from at least a hundred rupees and when no payment stands
      under the key of the host's week; then it asks for everything available. */
  lemma BeginsIff(s: World, w: nat, host: Uuid, at: int, available: int)
    requires w < |s.workers| && s.workers[w].Idle?
    ensures Apply(s, Begin(w, host, at, available)) ==
      if available >= 10000 && (forall slip :: slip in s.slips && slip.recorded ==> slip.key != PayoutKey(host, at))
      then s.(workers := s.workers[w := Ready(host, at, available)]) else s
  {
    var key := PayoutKey(host, at);
    assert Paid(s.slips, key) <==> exists slip :: slip in s.slips && slip.recorded && slip.key == key;
  }

  // ---------------------------------------------------------------- what was asked for

  /** Some process set out to pay this host, at this instant, its whole available balance. */
  ghost predicate Asked(steps: seq<Step>, host: Uuid, at: int, amount: int) {
    exists i :: 0 <= i < |steps| && steps[i].Begin?
      && steps[i].host == host && steps[i].at == at && steps[i].available == amount
  }

  lemma AskedBefore(steps: seq<Step>, last: Step, host: Uuid, at: int, amount: int)
    requires Asked(steps, host, at, amount)
    ensures Asked(steps + [last], host, at, amount)
  {
    var i :| 0 <= i < |steps| && steps[i].Begin?
      && steps[i].host == host && steps[i].at == at && steps[i].available == amount;
    assert (steps + [last])[i] == steps[i];
  }

  ghost predicate SlipsAsked(s: World, steps: seq<Step>) {
    && (forall slip :: slip in s.slips ==>
          Asked(steps, slip.host, slip.at, slip.amount) && slip.key == PayoutKey(slip.host, slip.at))
    && (forall pc :: pc in s.workers && pc.Ready? ==> Asked(steps, pc.host, pc.at, pc.amount))
  }

  lemma StepAsked(s: World, before: seq<Step>, steps: seq<Step>, last: Step)
    requires SlipsAsked(s, before) && steps == before + [last]
    ensures SlipsAsked(Apply(s, last), steps)
  {
    var s' := Apply(s, last);
    forall host: Uuid, at, amount | Asked(before, host, at, amount) ensures Asked(steps, host, at, amount) {
      AskedBefore(before, last, host, at, amount);
    }
    if last.Begin? {
      assert Asked(steps, last.host, last.at, last.available) by { assert steps[|before|] == last; }
    }
    if last.worker < |s.workers| { assert s.workers[last.worker] in s.workers; }
    forall slip | slip in s'.slips
      ensures Asked(steps, slip.host, slip.at, slip.amount) && slip.key == PayoutKey(slip.host, slip.at)
    {
      var k :| 0 <= k < |s'.slips| && s'.slips[k] == slip;
      if k < |s.slips| { assert s.slips[k] in s.slips; }
    }
  }

  /** Every payout of a run is for a host, an instant and an amount some process asked for. */
  lemma {:induction false} PayoutsWereAsked(workers: nat, steps: seq<Step>)
    ensures SlipsAsked(Run(World([], seq(workers, _ => Idle)), steps), steps)
  {
    if steps != [] {
      var front, last := steps[..|steps| - 1], steps[|steps| - 1];
      PayoutsWereAsked(workers, front);
      assert steps == front + [last];
      StepAsked(Run(World([], seq(workers, _ => Idle)), front), front, steps, last);
    }
  }

  // ---------------------------------------------------------------- weeks left unpaid

  /** No process is working on the slip. */
  ghost predicate Unheld(s: World, k: nat) {
    k < |s.slips| && forall w :: 0 <= w < |s.workers| && Holds(s.workers[w]) ==> s.workers[w].slip != k
  }

  /** Nor has it a standing transfer. */
  ghost predicate Abandoned(s: World, k: nat) {
    Unheld(s, k) && s.slips[k].sent == 0
  }

  /** The process holding the slip dies, cannot write the payment row, or is refused by the
      provider; or the provider reports later that the transfer failed or was reversed. */
  predicate Loses(s: World, step: Step, k: nat) {
    && step.worker < |s.workers|
    && match step
       case Report(_, slip, paid) => slip == k && k < |s.slips| && s.slips[k].calls > 0 && !paid
       case _ =>
         && Holds(s.workers[step.worker]) && s.workers[step.worker].slip == k
         && match step
            case Crash(_) => true
            case RecordPayment(_, lands) => s.workers[step.worker].Logged? && !lands
            case Transfer(_, accepted) => s.workers[step.worker].Paying? && !accepted
            case _ => false
  }

  /** The provider reports a transfer it was asked for as completed after all. */
  predicate Regains(s: World, step: Step, k: nat) {
    step.Report? && step.worker < |s.workers| && step.slip == k && k < |s.slips| && s.slips[k].calls > 0 && step.paid
  }

  /** Such a loss befell the slip and no later report of completion reached it. */
  ghost predicate WasLost(s: World, steps: seq<Step>, k: nat)
    decreases |steps|
  {
    steps != [] &&
    var front, last := steps[..|steps| - 1], steps[|steps| - 1];
    Loses(Run(s, front), last, k) || (WasLost(s, front, k) && !Regains(Run(s, front), last, k))
  }

  lemma UnheldStep(s: World, step: Step, k: nat)
    requires Unheld(s, k)
    ensures Unheld(Apply(s, step), k)
    ensures Apply(s, step).slips[k] == s.slips[k].(sent := Apply(s, step).slips[k].sent)
  {
  }

  lemma AbandonedStep(s: World, step: Step, k: nat)
    requires Abandoned(s, k) && !Regains(s, step, k)
    ensures Abandoned(Apply(s, step), k) && Apply(s, step).slips[k] == s.slips[k]
  {
  }

  lemma RegainsPays(s: World, step: Step, k: nat)
    requires Regains(s, step, k)
    ensures !Abandoned(Apply(s, step), k)
  {
    assert Apply(s, step).slips[k].sent == 1;
  }

  lemma LosesAbandons(s: World, step: Step, k: nat)
    requires WorkersOk(s) && Loses(s, step, k)
    ensures Abandoned(Apply(s, step), k)
  {
    var w, s' := step.worker, Apply(s, step);
    assert HolderOk(s, w);
    forall v: nat | v < |s'.workers| && Holds(s'.workers[v]) ensures s'.workers[v].slip != k {
      assert HolderOk(s, v);
      assert v < w ==> Apart(s, v, w);
      assert w < v ==> Apart(s, w, v);
    }
  }

  /** A slip still held, new or paid stays so unless it is lost. */
  lemma StaysInHand(s: World, step: Step, k: nat)
    requires WorkersOk(s) && !Abandoned(s, k) && !Loses(s, step, k)
    ensures !Abandoned(Apply(s, step), k)
  {
    var s' := Apply(s, step);
    if k < |s.slips| && s.slips[k].sent == 0 {
      var w :| 0 <= w < |s.workers| && Holds(s.workers[w]) && s.workers[w].slip == k;
      assert HolderOk(s, w);
      assert s'.workers[w] == s.workers[w] || step.worker == w;
    } else if k == |s.slips| && k < |s'.slips| {
      assert s'.workers[step.worker] == Logged(k);
    }
  }

  /** A step leaves a slip abandoned exactly when it loses it, or it was abandoned before and
      the step does not report it completed. */
  lemma AbandonedIff(s: World, step: Step, k: nat)
    requires WorkersOk(s)
    ensures Abandoned(Apply(s, step), k) <==> Loses(s, step, k) || (Abandoned(s, k) && !Regains(s, step, k))
  {
    if Loses(s, step, k) {
      LosesAbandons(s, step, k);
    } else if Regains(s, step, k) {
      RegainsPays(s, step, k);
    } else if Abandoned(s, k) {
      AbandonedStep(s, step, k);
    } else {
      StaysInHand(s, step, k);
    }
  }

  lemma {:induction false} RunAbandonedIff(s: World, steps: seq<Step>, k: nat)
    requires Inv(s) && !Abandoned(s, k)
    ensures Inv(Run(s, steps))
    ensures Abandoned(Run(s, steps), k) <==> WasLost(s, steps, k)
  {
    if steps != [] {
      var front, last := steps[..|steps| - 1], steps[|steps| - 1];
      RunAbandonedIff(s, front, k);
      StepKeeps(Run(s, front), last);
      AbandonedIff(Run(s, front), last, k);
    }
  }

  /** From the start to any point of rest: a host whose payout for a week was begun has no
      transfer for that week exactly when the process holding it died, could not write the
      payment row or was refused by the provider, or the provider reported later that the
      transfer failed or was reversed, and no report of completion followed. No crash is
      needed. */
  lemma WeekUnpaidIff(workers: nat, steps: seq<Step>, k: nat)
    requires var e := Run(World([], seq(workers, _ => Idle)), steps);
      k < |e.slips| && forall w :: 0 <= w < |e.workers| ==> !Holds(e.workers[w])
    ensures var s := World([], seq(workers, _ => Idle));
      var e := Run(s, steps);
      TransfersIn(e.slips, e.slips[k].host, e.slips[k].at) == 0 <==> WasLost(s, steps, k)
  {
    var s := World([], seq(workers, _ => Idle));
    StartInv(workers);
    RunAbandonedIff(s, steps, k);
    OnlyOwnSlip(Run(s, steps).slips, k);
  }

  /** No report of completion reaches slip `k` during the run. */
  ghost predicate NeverRegained(s: World, steps: seq<Step>, k: nat)
    decreases |steps|
  {
    steps == [] ||
    (NeverRegained(s, steps[..|steps| - 1], k) && !Regains(Run(s, steps[..|steps| - 1]), steps[|steps| - 1], k))
  }

  ghost predicate UnpaidThroughout(s: World, steps: seq<Step>, k: nat)
    decreases |steps|
  {
    && Abandoned(Run(s, steps), k)
    && (steps == [] || UnpaidThroughout(s, steps[..|steps| - 1], k))
  }

  /** An abandoned week stays unpaid, whatever is attempted in it: every later attempt is refused
      or handed the unsent payment. Throughout a continuation nothing is sent for it exactly
      when the provider never reports the lost transfer as completed after all, which cannot
      happen if the provider was never asked. */
  lemma {:induction false} AbandonedWeekStaysUnpaid(s: World, steps: seq<Step>, k: nat)
    requires Inv(s) && Abandoned(s, k)
    ensures Inv(Run(s, steps)) && Unheld(Run(s, steps), k)
    ensures var before, after := s.slips[k], Run(s, steps).slips[k];
      && after.host == before.host && after.at == before.at && after.calls == before.calls
      && TransfersIn(Run(s, steps).slips, before.host, before.at) == after.sent
    ensures UnpaidThroughout(s, steps, k) <==> NeverRegained(s, steps, k)
    ensures s.slips[k].calls == 0 ==> NeverRegained(s, steps, k)
  {
    if steps != [] {
      var front, last := steps[..|steps| - 1], steps[|steps| - 1];
      AbandonedWeekStaysUnpaid(s, front, k);
      var m := Run(s, front);
      StepKeeps(m, last);
      UnheldStep(m, last, k);
      AbandonedIff(m, last, k);
    }
    OnlyOwnSlip(Run(s, steps).slips, k);
  }

  lemma {:induction false} OnlyOwnSlip(slips: seq<Slip>, k: nat)
    requires SlipsOk(slips) && k < |slips|
    ensures TransfersIn(slips, slips[k].host, slips[k].at) == slips[k].sent
  {
    var front, last := slips[..|slips| - 1], slips[|slips| - 1];
    if k == |slips| - 1 {
      forall i | 0 <= i < |front| ensures front[i].host != last.host || !SameWeek(front[i].at, last.at) {
        assert slips[i] == front[i];
      }
      AtMostOneTransfer(front, last.host, last.at);
    } else {
      OnlyOwnSlip(front, k);
      assert slips[k] == front[k];
    }
  }

  // ---------------------------------------------------------------- the batch

  /** How far the payout gets once its entry is written. */
  datatype Outcome = NotRecorded | Refused | Sent

  /** What the checks of RunAutoPayoutForHost and RequestWithdrawal find about a host: among
      them whether its account exists and whether its owner is flagged for fraud. */
  datatype Host = Host(id: Uuid, found: bool, enabled: bool, coHosts: nat, methods: seq<PayoutMethod>, account: bool,
                       available: int, flagged: bool, outcome: Outcome)

  predicate Eligible(h: Host) {
    && h.found && h.enabled && h.coHosts == 0 && (exists i :: 0 <= i < |h.methods| && Payable(h.methods[i]))
    && h.account && h.available >= MINIMUM && !h.flagged
  }

  /** The slip of a payout begun now. */
  function NewSlip(h: Host, now: int): Slip {
    Slip(h.id, now, PayoutKey(h.id, now), h.available, h.outcome != NotRecorded,
         if h.outcome == NotRecorded then 0 else 1, if h.outcome == Sent then 1 else 0)
  }

  /** For an eligible host without a payout this week one of its whole available balance is
      begun; anyone else is skipped. */
  function PayOne(slips: seq<Slip>, h: Host, now: int): seq<Slip> {
    if Eligible(h) && Unpaid(slips, h.id, now) then slips + [NewSlip(h, now)] else slips
  }

  function PayAll(slips: seq<Slip>, hosts: seq<Host>, now: int): seq<Slip> {
    if hosts == [] then slips else PayOne(PayAll(slips, hosts[..|hosts| - 1], now), hosts[|hosts| - 1], now)
  }

  /** After the batch every eligible host has a payout begun for the week; earlier payouts are
      kept. */
  lemma {:induction false} BatchPaysEveryone(slips: seq<Slip>, hosts: seq<Host>, now: int)
    ensures slips <= PayAll(slips, hosts, now)
    ensures forall i :: 0 <= i < |hosts| && Eligible(hosts[i]) ==> !Unpaid(PayAll(slips, hosts, now), hosts[i].id, now)
  {
    if hosts != [] {
      var n := |hosts| - 1;
      BatchPaysEveryone(slips, hosts[..n], now);
      var mid, done := PayAll(slips, hosts[..n], now), PayAll(slips, hosts, now);
      forall i | 0 <= i < |hosts| && Eligible(hosts[i]) ensures !Unpaid(done, hosts[i].id, now) {
        if i < n {
          assert hosts[..n][i] == hosts[i];
          StaysPaid(mid, done, hosts[i].id, now);
        } else if Unpaid(mid, hosts[n].id, now) {
          assert done[|mid|].host == hosts[n].id;
        }
      }
    }
  }

  lemma StaysPaid(before: seq<Slip>, after: seq<Slip>, host: Uuid, now: int)
    requires before <= after && !Unpaid(before, host, now)
    ensures !Unpaid(after, host, now)
  {
    var i :| 0 <= i < |before| && before[i].host == host && SameWeek(before[i].at, now);
    assert after[i] == before[i];
  }

  lemma {:induction false} OthersUntouched(slips: seq<Slip>, hosts: seq<Host>, id: Uuid, now: int)
    requires forall i :: 0 <= i < |hosts| ==> hosts[i].id != id
    ensures Unpaid(PayAll(slips, hosts, now), id, now) <==> Unpaid(slips, id, now)
  {
    if hosts != [] {
      var front, h := hosts[..|hosts| - 1], hosts[|hosts| - 1];
      OthersUntouched(slips, front, id, now);
      var mid := PayAll(slips, front, now);
      if Eligible(h) && Unpaid(mid, h.id, now) {
        assert forall i :: 0 <= i < |mid| ==> (mid + [NewSlip(h, now)])[i] == mid[i];
      }
    }
  }

  /** An eligible host without a payout this week gets its own, carried out as far as its
      payment row and the provider allow: it is paid exactly when both take it. */
  lemma {:induction false} BatchBeginsPayout(slips: seq<Slip>, hosts: seq<Host>, i: nat, now: int)
    requires forall j, k :: 0 <= j < k < |hosts| ==> hosts[j].id != hosts[k].id
    requires i < |hosts| && Eligible(hosts[i]) && Unpaid(slips, hosts[i].id, now)
    ensures exists slip ::
      && slip in PayAll(slips, hosts, now)
      && slip.host == hosts[i].id && slip.at == now && slip.key == PayoutKey(hosts[i].id, now)
      && slip.amount == hosts[i].available
      && (slip.recorded <==> hosts[i].outcome != NotRecorded)
      && slip.calls == (if hosts[i].outcome == NotRecorded then 0 else 1)
      && slip.sent == (if hosts[i].outcome == Sent then 1 else 0)
  {
    var n := |hosts| - 1;
    if i < n {
      BatchBeginsPayout(slips, hosts[..n], i, now);
    } else {
      OthersUntouched(slips, hosts[..n], hosts[n].id, now);
      assert NewSlip(hosts[n], now) in PayAll(slips, hosts, now);
    }
  }

  lemma UnpaidAnyTime(slips: seq<Slip>, host: Uuid, t: int, u: int)
    requires SameWeek(t, u)
    ensures Unpaid(slips, host, t) <==> Unpaid(slips, host, u)
  {
  }

  /** An eligible host of the list. */
  predicate Pays(hosts: seq<Host>, id: Uuid) {
    exists i :: 0 <= i < |hosts| && Eligible(hosts[i]) && hosts[i].id == id
  }

  lemma {:induction false} UnpaidAfterBatch(slips: seq<Slip>, hosts: seq<Host>, id: Uuid, now: int)
    ensures Unpaid(PayAll(slips, hosts, now), id, now) <==> Unpaid(slips, id, now) && !Pays(hosts, id)
  {
    BatchPaysEveryone(slips, hosts, now);
    if !Pays(hosts, id) {
      NotPaidStays(slips, hosts, id, now);
    }
  }

  lemma {:induction false} NotPaidStays(slips: seq<Slip>, hosts: seq<Host>, id: Uuid, now: int)
    requires !Pays(hosts, id)
    ensures Unpaid(PayAll(slips, hosts, now), id, now) <==> Unpaid(slips, id, now)
  {
    if hosts != [] {
      var front, h := hosts[..|hosts| - 1], hosts[|hosts| - 1];
      assert !Pays(front, id);
      NotPaidStays(slips, front, id, now);
      OneMoreUnpaid(PayAll(slips, front, now), h, id, now);
    }
  }

  lemma OneMoreUnpaid(slips: seq<Slip>, h: Host, id: Uuid, now: int)
    requires Eligible(h) ==> h.id != id
    ensures Unpaid(PayOne(slips, h, now), id, now) <==> Unpaid(slips, id, now)
  {
    if Eligible(h) && Unpaid(slips, h.id, now) {
      assert forall i :: 0 <= i < |slips| ==> (slips + [NewSlip(h, now)])[i] == slips[i];
    }
  }

  /** A batch begins nothing exactly when every eligible host has its payout already. */
  lemma {:induction false} NothingBegunIff(slips: seq<Slip>, hosts: seq<Host>, now: int)
    ensures PayAll(slips, hosts, now) == slips <==> forall id :: Pays(hosts, id) ==> !Unpaid(slips, id, now)
  {
    if hosts != [] {
      var n := |hosts| - 1;
      NothingBegunIff(slips, hosts[..n], now);
      BatchPaysEveryone(slips, hosts[..n], now);
      assert forall id :: Pays(hosts, id) <==> Pays(hosts[..n], id) || (Eligible(hosts[n]) && hosts[n].id == id) by {
        forall id ensures Pays(hosts, id) <==> Pays(hosts[..n], id) || (Eligible(hosts[n]) && hosts[n].id == id) {
          PaysOneMore(hosts, id);
        }
      }
    }
  }

  lemma PaysOneMore(hosts: seq<Host>, id: Uuid)
    requires hosts != []
    ensures var n := |hosts| - 1; Pays(hosts, id) <==> Pays(hosts[..n], id) || (Eligible(hosts[n]) && hosts[n].id == id)
  {
    var n := |hosts| - 1;
    if Pays(hosts[..n], id) {
      var i :| 0 <= i < n && Eligible(hosts[..n][i]) && hosts[..n][i].id == id;
      assert Eligible(hosts[i]);
    }
    if Pays(hosts, id) {
      var i :| 0 <= i < |hosts| && Eligible(hosts[i]) && hosts[i].id == id;
      assert i < n ==> hosts[..n][i] == hosts[i];
    }
  }

  /** Firing the batch again in the same week pays nobody, whatever has been earned since,
      exactly when everybody eligible by then was so the first time or had a payout before:
      a host whose fraud flag is lifted in between is paid. */
  lemma RepeatPaysNobody(slips: seq<Slip>, hosts: seq<Host>, now: int, later: seq<Host>, again: int)
    requires SameWeek(now, again)
    ensures PayAll(PayAll(slips, hosts, now), later, again) == PayAll(slips, hosts, now)
      <==> forall id :: Pays(later, id) ==> Pays(hosts, id) || !Unpaid(slips, id, now)
  {
    var done := PayAll(slips, hosts, now);
    NothingBegunIff(done, later, again);
    forall id ensures Unpaid(done, id, again) <==> Unpaid(slips, id, now) && !Pays(hosts, id) {
      UnpaidAfterBatch(slips, hosts, id, now);
      UnpaidAnyTime(done, id, now, again);
    }
  }

  lemma AppendKeepsKeys(slips: seq<Slip>, slip: Slip)
    requires KeysOk(slips) && slip.key == PayoutKey(slip.host, slip.at)
    ensures KeysOk(slips + [slip])
  {
  }

  lemma AppendKeepsSlips(slips: seq<Slip>, slip: Slip)
    requires SlipsOk(slips) && Unpaid(slips, slip.host, slip.at)
    requires SlipOk(slip)
    ensures SlipsOk(slips + [slip])
  {
  }

  lemma PayOneKeeps(slips: seq<Slip>, h: Host, now: int)
    requires KeysOk(slips) && SlipsOk(slips)
    ensures KeysOk(PayOne(slips, h, now)) && SlipsOk(PayOne(slips, h, now))
  {
    if Eligible(h) && Unpaid(slips, h.id, now) {
      AppendKeepsKeys(slips, NewSlip(h, now));
      AppendKeepsSlips(slips, NewSlip(h, now));
    }
  }

  class Scheduler {
    var slips: seq<Slip>

    ghost predicate Valid()
      reads this
    {
      KeysOk(slips) && SlipsOk(slips)
    }

    constructor ()
      ensures Valid() && slips == []
    {
      slips := [];
    }

    method IsTaken(key: string) returns (taken: bool)
      ensures taken <==> Taken(slips, key)
    {
      for i := 0 to |slips|
        invariant forall k :: 0 <= k < i ==> slips[k].key != key
      {
        if slips[i].key == key { return true; }
      }
      taken := false;
    }

    /** RunAutoPayoutForHost, undisturbed. */
    method PayHost(h: Host, now: int) returns (paid: bool)
      requires Valid()
      modifies this
      ensures Valid() && slips == PayOne(old(slips), h, now)
      ensures var passes := h.found && h.enabled && h.coHosts == 0 && h.account && !h.flagged && h.available >= 10000
          && exists m :: m in h.methods && m.kind == Bank && m.verified;
        var unpaid := forall slip :: slip in old(slips) ==> slip.host != h.id || !SameWeek(slip.at, now);
        && (paid <==> passes && unpaid && h.outcome == Sent)
        && (!(passes && unpaid) ==> slips == old(slips))
        && (passes && unpaid ==>
              slips == old(slips) + [Slip(h.id, now, PayoutKey(h.id, now), h.available, h.outcome != NotRecorded,
                                          if h.outcome == NotRecorded then 0 else 1,
                                          if h.outcome == Sent then 1 else 0)])
    {
      paid := false;
      UnpaidIffKeyFree(slips, h.id, now);
      PayOneKeeps(slips, h, now);
      if !h.found || !h.enabled || h.coHosts > 0 { return; }
      var picked := PickBankMethod(h.methods);
      if picked.None? || !h.account || h.available < MINIMUM { return; }
      var taken := IsTaken(PayoutKey(h.id, now));
      if taken || h.flagged { return; }
      var slip := Slip(h.id, now, PayoutKey(h.id, now), h.available, false, 0, 0);
      if h.outcome != NotRecorded {
        slip := slip.(recorded := true);
        slip := Called(slip, h.outcome == Sent);
        paid := h.outcome == Sent;
      }
      slips := slips + [slip];
    }

    /** RunAutoPayouts: one host's failure does not stop the batch. */
    method RunAutoPayouts(hosts: seq<Host>, now: int)
      requires Valid()
      modifies this
      ensures Valid() && slips == PayAll(old(slips), hosts, now)
    {
      for i := 0 to |hosts|
        invariant Valid() && slips == PayAll(old(slips), hosts[..i], now)
      {
        assert hosts[..i + 1][..i] == hosts[..i];
        var paid := PayHost(hosts[i], now);
      }
      assert hosts[..|hosts|] == hosts;
    }
  }
}
