/** Webhooks that report what became of a refund. Each call reads the refund's row, checks its
    status, reverses the wallet debit if the refund failed, and writes the status last; calls
    overlap, and a process may die in between. */
module RefundWebhooks {
  import opened Common
  import opened Ledger
  import opened Refunds

  /** A call that has found its row unfinished, or has also reversed the debit. */
  datatype Pc = Waiting | Acting(row: nat, failed: bool) | GaveBack(row: nat)

  datatype Traffic = Traffic(d: Desk, calls: seq<Pc>)

  datatype Step =
    | Deliver(call: nat, row: nat, failed: bool)
    | Reverse(call: nat)
    | Finish(call: nat)
    | Crash(call: nat)

  predicate Final(p: Payment) { p.status in {Completed, Failed} }

  /** A webhook finds the row by the gateway's identifier and leaves a final one alone. */
  predicate Hears(p: Payment) { p.kind == Refund && p.linked && !Final(p) }

  predicate Reverses(s: Traffic, step: Step) {
    && step.Reverse? && step.call < |s.calls| && s.calls[step.call].Acting? && s.calls[step.call].failed
    && s.calls[step.call].row < |s.d.payments|
  }

  function Apply(s: Traffic, step: Step): Traffic {
    if step.call >= |s.calls| then s
    else
      var h, pc := step.call, s.calls[step.call];
      match step
      case Deliver(_, row, failed) =>
        if pc.Waiting? && row < |s.d.payments| && Hears(s.d.payments[row])
        then s.(calls := s.calls[h := Acting(row, failed)]) else s
      case Reverse(_) =>
        if Reverses(s, step) then
          var p := s.d.payments[pc.row];
          Traffic(s.d.(bank := GiveBack(s.d.bank, p.account, p.id, p.amount, true)), s.calls[h := GaveBack(pc.row)])
        else
          s
      case Finish(_) =>
        if pc.Waiting? || pc.row >= |s.d.payments| || (pc.Acting? && pc.failed) then s
        else
          Traffic(s.d.(payments := Mark(s.d.payments, pc.row, if pc.GaveBack? then Failed else Completed)),
                s.calls[h := Waiting])
      case Crash(_) => s.(calls := s.calls[h := Waiting])
  }

  function Run(s: Traffic, steps: seq<Step>): Traffic {
    if steps == [] then s else Apply(Run(s, steps[..|steps| - 1]), steps[|steps| - 1])
  }

  function Start(d: Desk, calls: nat): Traffic { Traffic(d, seq(calls, _ => Waiting)) }

  // ---------------------------------------------------------------- reversals repeated

  /** Refunds are positive, of known accounts with no negative balance, and have their own
      identifiers. */
  ghost predicate DeskOk(d: Desk) {
    && (forall i {:trigger d.payments[i]} :: 0 <= i < |d.payments| && d.payments[i].kind == Refund ==>
          d.payments[i].amount > 0 && d.payments[i].account in d.bank.balances)
    && (forall i, k :: 0 <= i < k < |d.payments| ==> d.payments[i].id != d.payments[k].id)
    && NoNegativeBalance(d.bank)
  }

  ghost predicate CallsOk(s: Traffic) {
    forall h :: 0 <= h < |s.calls| && !s.calls[h].Waiting? ==>
      s.calls[h].row < |s.d.payments| && s.d.payments[s.calls[h].row].kind == Refund
  }

  /** The reversal about to be made has been made before: its ledger key is used, which stops
      the entry but not the wallet credit. */
  predicate Repeats(s: Traffic, step: Step) {
    Reverses(s, step) && HasKey(s.d.bank.entries, ReversalKey(s.d.payments[s.calls[step.call].row].id))
  }

  /** What the step pays into the wallet of `a` beyond its ledger entries. */
  function Overpaid(s: Traffic, step: Step, a: AccountId): int {
    if Repeats(s, step) && s.d.payments[s.calls[step.call].row].account == a
    then s.d.payments[s.calls[step.call].row].amount else 0
  }

  function OverpaidIn(s: Traffic, steps: seq<Step>, a: AccountId): int {
    if steps == [] then 0
    else
      var front := steps[..|steps| - 1];
      OverpaidIn(s, front, a) + Overpaid(Run(s, front), steps[|steps| - 1], a)
  }

  /** No reversal on account `a` is made twice. */
  ghost predicate NoRepeats(s: Traffic, steps: seq<Step>, a: AccountId)
    decreases |steps|
  {
    steps == [] ||
    var front := steps[..|steps| - 1];
    NoRepeats(s, front, a) && Overpaid(Run(s, front), steps[|steps| - 1], a) == 0
  }

  lemma ReverseDrift(s: Traffic, step: Step, a: AccountId)
    requires DeskOk(s.d) && CallsOk(s) && Reverses(s, step) && a in s.d.bank.balances
    ensures var s' := Apply(s, step);
      && DeskOk(s'.d) && a in s'.d.bank.balances
      && Drift(s'.d.bank, a) == Drift(s.d.bank, a) + Overpaid(s, step, a)
  {
    var p, b := s.d.payments[s.calls[step.call].row], s.d.bank;
    GiveBackDrift(b, p.account, p.id, p.amount);
    if a != p.account { GiveBackOthers(b, p.account, p.id, p.amount, a); }
  }

  lemma GiveBackOthers(b: Bank, account: AccountId, id: Uuid, amount: int, a: AccountId)
    requires account in b.balances && b.balances[account] >= 0 && amount > 0 && a in b.balances && a != account
    ensures var b' := GiveBack(b, account, id, amount, true); a in b'.balances && Drift(b', a) == Drift(b, a)
  {
    match Post(b, account, amount, Some(ReversalKey(id)))
    case None => CreditMoves(b, account, amount);
    case Some(c) =>
      PostMoves(b, account, amount, Some(ReversalKey(id)));
      CreditMoves(c, account, amount);
  }

  lemma StepDrift(s: Traffic, step: Step, a: AccountId)
    requires DeskOk(s.d) && CallsOk(s) && a in s.d.bank.balances
    ensures var s' := Apply(s, step);
      && DeskOk(s'.d) && CallsOk(s') && a in s'.d.bank.balances
      && Drift(s'.d.bank, a) == Drift(s.d.bank, a) + Overpaid(s, step, a)
      && Overpaid(s, step, a) >= 0
  {
    if Reverses(s, step) { ReverseDrift(s, step, a); }
  }

  /** Over every run of overlapping and dying calls the drift of an account grows by exactly the
      reversals made twice; so it stays as it was exactly when no reversal finds its own ledger
      key already used. */
  lemma {:induction false} DriftIffRepeated(s: Traffic, steps: seq<Step>, a: AccountId)
    requires DeskOk(s.d) && CallsOk(s) && a in s.d.bank.balances
    ensures var e := Run(s, steps);
      && DeskOk(e.d) && CallsOk(e) && a in e.d.bank.balances
      && Drift(e.d.bank, a) == Drift(s.d.bank, a) + OverpaidIn(s, steps, a)
      && OverpaidIn(s, steps, a) >= 0
      && (Drift(e.d.bank, a) == Drift(s.d.bank, a) <==> NoRepeats(s, steps, a))
  {
    if steps != [] {
      DriftIffRepeated(s, steps[..|steps| - 1], a);
      StepDrift(Run(s, steps[..|steps| - 1]), steps[|steps| - 1], a);
    }
  }

  // ---------------------------------------------------------------- when nothing is repeated

  ghost predicate Busy(s: Traffic, row: nat) {
    exists h :: 0 <= h < |s.calls| && !s.calls[h].Waiting? && s.calls[h].row == row
  }

  /** A call arrives only when no other is at work on its row, and none dies between reversing
      and writing the status. */
  ghost predicate Orderly(s: Traffic, step: Step) {
    && (step.Deliver? ==> !Busy(s, step.row))
    && (step.Crash? && step.call < |s.calls| ==> !s.calls[step.call].GaveBack?)
  }

  ghost predicate AllOrderly(s: Traffic, steps: seq<Step>)
    decreases |steps|
  {
    steps == [] ||
    (AllOrderly(s, steps[..|steps| - 1]) && Orderly(Run(s, steps[..|steps| - 1]), steps[|steps| - 1]))
  }

  /** The reversal of refund `i` is written only if the row is final or a call is about to make
      it so. */
  ghost predicate RowSettles(s: Traffic, i: nat)
    requires i < |s.d.payments|
  {
    var p := s.d.payments[i];
    p.kind == Refund && p.linked && HasKey(s.d.bank.entries, ReversalKey(p.id)) ==>
      Final(p) || exists h :: 0 <= h < |s.calls| && s.calls[h] == GaveBack(i)
  }

  /** Calls work on different rows, and none is about to make a reversal already made. */
  ghost predicate Tidy(s: Traffic) {
    && (forall i: nat :: i < |s.d.payments| ==> RowSettles(s, i))
    && (forall g, h :: 0 <= g < h < |s.calls| && !s.calls[g].Waiting? && !s.calls[h].Waiting? ==>
          s.calls[g].row != s.calls[h].row)
    && (forall h :: 0 <= h < |s.calls| && s.calls[h].Acting? && s.calls[h].row < |s.d.payments| ==>
          !HasKey(s.d.bank.entries, ReversalKey(s.d.payments[s.calls[h].row].id)))
  }

  lemma GiveBackKeys(b: Bank, account: AccountId, id: Uuid, amount: int, key: string)
    requires account in b.balances
    ensures HasKey(GiveBack(b, account, id, amount, true).entries, key)
      <==> HasKey(b.entries, key) || key == ReversalKey(id)
  {
    match Post(b, account, amount, Some(ReversalKey(id)))
    case None =>
    case Some(c) => PostKeys(b, account, amount, ReversalKey(id), c);
  }

  lemma ReverseTidy(s: Traffic, step: Step)
    requires DeskOk(s.d) && CallsOk(s) && Tidy(s) && Reverses(s, step)
    ensures Tidy(Apply(s, step)) && !Repeats(s, step)
  {
    var s', pc := Apply(s, step), s.calls[step.call];
    var p := s.d.payments[pc.row];
    forall i: nat | i < |s'.d.payments| ensures RowSettles(s', i) {
      var q := s.d.payments[i];
      GiveBackKeys(s.d.bank, p.account, p.id, p.amount, ReversalKey(q.id));
      if i == pc.row {
        assert s'.calls[step.call] == GaveBack(i);
      } else {
        assert RowSettles(s, i);
        if ReversalKey(q.id) == ReversalKey(p.id) { KeysApart(q.id, p.id); }
        if exists h :: 0 <= h < |s.calls| && s.calls[h] == GaveBack(i) {
          var h :| 0 <= h < |s.calls| && s.calls[h] == GaveBack(i);
          assert s'.calls[h] == GaveBack(i);
        }
      }
    }
    forall h | 0 <= h < |s'.calls| && s'.calls[h].Acting? && s'.calls[h].row < |s'.d.payments|
      ensures !HasKey(s'.d.bank.entries, ReversalKey(s'.d.payments[s'.calls[h].row].id))
    {
      var q := s.d.payments[s.calls[h].row];
      GiveBackKeys(s.d.bank, p.account, p.id, p.amount, ReversalKey(q.id));
      if ReversalKey(q.id) == ReversalKey(p.id) { KeysApart(q.id, p.id); }
    }
  }

  lemma OtherTidy(s: Traffic, step: Step)
    requires CallsOk(s) && Tidy(s) && Orderly(s, step) && !Reverses(s, step)
    ensures Tidy(Apply(s, step))
  {
    var s' := Apply(s, step);
    forall i: nat | i < |s'.d.payments| ensures RowSettles(s', i) {
      assert RowSettles(s, i);
      if exists h :: 0 <= h < |s.calls| && s.calls[h] == GaveBack(i) {
        var h :| 0 <= h < |s.calls| && s.calls[h] == GaveBack(i);
        assert s'.calls[h] == GaveBack(i) || (step.Finish? && step.call == h);
      }
    }
    if step.Deliver? && step.call < |s.calls| && s' != s {
      assert RowSettles(s, step.row);
      if exists h :: 0 <= h < |s.calls| && s.calls[h] == GaveBack(step.row) {
        assert Busy(s, step.row);
      }
    }
  }

  lemma {:induction false} OrderlyKeepsTidy(s: Traffic, steps: seq<Step>, a: AccountId)
    requires DeskOk(s.d) && CallsOk(s) && Tidy(s) && a in s.d.bank.balances && AllOrderly(s, steps)
    ensures Tidy(Run(s, steps)) && NoRepeats(s, steps, a)
  {
    if steps != [] {
      var front, last := steps[..|steps| - 1], steps[|steps| - 1];
      OrderlyKeepsTidy(s, front, a);
      DriftIffRepeated(s, front, a);
      if Reverses(Run(s, front), last) {
        ReverseTidy(Run(s, front), last);
      } else {
        OtherTidy(Run(s, front), last);
      }
    }
  }

  /** So the deterministic key is enough when calls on one row do not overlap and none dies
      halfway: from a desk on which only final refunds have been reversed, no account drifts. */
  lemma OrderlyCallsNeverDrift(d: Desk, calls: nat, steps: seq<Step>, a: AccountId)
    requires DeskOk(d) && a in d.bank.balances && AllOrderly(Start(d, calls), steps)
    requires forall i :: 0 <= i < |d.payments| && Hears(d.payments[i]) ==>
      !HasKey(d.bank.entries, ReversalKey(d.payments[i].id))
    ensures var e := Run(Start(d, calls), steps);
      a in e.d.bank.balances && Drift(e.d.bank, a) == Drift(d.bank, a)
  {
    OrderlyKeepsTidy(Start(d, calls), steps, a);
    DriftIffRepeated(Start(d, calls), steps, a);
  }

  /** Both conditions are needed. A call that dies after reversing leaves the row unfinished: the
      gateway's next delivery of the same webhook credits the wallet again. */
  lemma CrashThenRetry(d: Desk, i: nat)
    requires DeskOk(d) && i < |d.payments| && Hears(d.payments[i])
    requires !HasKey(d.bank.entries, ReversalKey(d.payments[i].id))
    ensures var p := d.payments[i];
      var died := Apply(Apply(Apply(Start(d, 1), Deliver(0, i, true)), Reverse(0)), Crash(0));
      var e := Apply(Apply(Apply(died, Deliver(0, i, true)), Reverse(0)), Finish(0));
      && p.account in e.d.bank.balances
      && e.d.bank.balances[p.account] == d.bank.balances[p.account] + 2 * p.amount
      && Drift(e.d.bank, p.account) == Drift(d.bank, p.account) + p.amount
      && e.d.payments[i].status == Failed
  {
    var p := d.payments[i];
    var once := GiveBack(d.bank, p.account, p.id, p.amount, true);
    GiveBackDrift(d.bank, p.account, p.id, p.amount);
    GiveBackKeys(d.bank, p.account, p.id, p.amount, ReversalKey(p.id));
    GiveBackDrift(once, p.account, p.id, p.amount);
    var died := Apply(Apply(Apply(Start(d, 1), Deliver(0, i, true)), Reverse(0)), Crash(0));
    assert died == Traffic(Desk(d.payments, once), [Waiting]);
  }

  /** Two overlapping deliveries do the same, with no crash. */
  lemma WebhookTwice(d: Desk, i: nat)
    requires DeskOk(d) && i < |d.payments| && Hears(d.payments[i])
    requires !HasKey(d.bank.entries, ReversalKey(d.payments[i].id))
    ensures var p := d.payments[i];
      var both := Apply(Apply(Start(d, 2), Deliver(0, i, true)), Deliver(1, i, true));
      var once := Apply(Apply(both, Reverse(0)), Finish(0));
      var e := Apply(Apply(once, Reverse(1)), Finish(1));
      && p.account in once.d.bank.balances && p.account in e.d.bank.balances
      && once.d.bank.balances[p.account] == d.bank.balances[p.account] + p.amount
      && Drift(once.d.bank, p.account) == Drift(d.bank, p.account)
      && e.d.bank.balances[p.account] == d.bank.balances[p.account] + 2 * p.amount
      && Drift(e.d.bank, p.account) == Drift(d.bank, p.account) + p.amount
  {
    var p := d.payments[i];
    var first := GiveBack(d.bank, p.account, p.id, p.amount, true);
    GiveBackDrift(d.bank, p.account, p.id, p.amount);
    GiveBackKeys(d.bank, p.account, p.id, p.amount, ReversalKey(p.id));
    GiveBackDrift(first, p.account, p.id, p.amount);
    var both := Apply(Apply(Start(d, 2), Deliver(0, i, true)), Deliver(1, i, true));
    assert both.calls == [Acting(i, true), Acting(i, true)];
    var once := Apply(Apply(both, Reverse(0)), Finish(0));
    assert once == Traffic(Desk(Mark(d.payments, i, Failed), first), [Waiting, Acting(i, true)]);
  }

  // ---------------------------------------------------------------- a refund in flight is answered

  /** A delivery is taken up exactly when it names a refund that holds the gateway's identifier
      and has neither been completed nor failed. Only the report of a failure reverses anything. */
  lemma TakenUpIff(s: Traffic, h: nat, row: nat, failed: bool)
    requires h < |s.calls| && s.calls[h] == Waiting && row < |s.d.payments|
    ensures var p := s.d.payments[row];
      Apply(s, Deliver(h, row, failed)).calls[h] == Acting(row, failed)
      <==> p.kind == Refund && p.linked && p.status != Completed && p.status != Failed
    ensures forall g: nat, k: nat :: g < |s.calls| && s.calls[g] == Acting(k, false) ==> Apply(s, Reverse(g)) == s
  {
  }

  /** A refund the gateway is still working on ends as the gateway later says. A failure gives
      wallet, ledger and headroom back and marks the row failed; a success leaves them lower and
      marks the row completed. */
  lemma InFlightAnswered(d: Desk, topup: nat, amount: int, id: Uuid, key: string, created: int, calls: nat)
    requires Clear(d, topup, amount, id, key) && calls > 0
    ensures var a, n := d.payments[topup].account, |d.payments|;
      var s := Start(AfterRefund(d, topup, amount, id, key, created, InFlight, true), calls);
      var failed := Apply(Apply(Apply(s, Deliver(0, n, true)), Reverse(0)), Finish(0)).d;
      var paid := Apply(Apply(s, Deliver(0, n, false)), Finish(0)).d;
      && a in failed.bank.balances && |failed.payments| == n + 1 && failed.payments[n].status == Failed
      && failed.bank.balances[a] == d.bank.balances[a]
      && LedgerSum(failed.bank.entries, a) == LedgerSum(d.bank.entries, a)
      && Headroom(failed.payments, topup) == Headroom(d.payments, topup)
      && a in paid.bank.balances && |paid.payments| == n + 1 && paid.payments[n].status == Completed
      && paid.bank.balances[a] == d.bank.balances[a] - amount
      && LedgerSum(paid.bank.entries, a) == LedgerSum(d.bank.entries, a) - amount
      && Headroom(paid.payments, topup) == Headroom(d.payments, topup) - amount
  {
    var e, n := AfterRefund(d, topup, amount, id, key, created, InFlight, true), |d.payments|;
    RefundOutcome(d, topup, amount, id, key, created, InFlight, true);
    var p := e.payments[n];
    ActiveUpdate(e.payments, n, p.(status := Failed), topup);
    ActiveUpdate(e.payments, n, p.(status := Completed), topup);
    ReversalKeyFree(d, topup, amount, id, key, created);
    GiveBackDrift(e.bank, p.account, id, amount);
    var s := Start(e, calls);
    assert Apply(s, Deliver(0, n, true)).calls[0] == Acting(n, true);
    assert Apply(s, Deliver(0, n, false)).calls[0] == Acting(n, false);
  }

  lemma ReversalKeyFree(d: Desk, topup: nat, amount: int, id: Uuid, key: string, created: int)
    requires Clear(d, topup, amount, id, key)
    ensures !HasKey(AfterRefund(d, topup, amount, id, key, created, InFlight, true).bank.entries, ReversalKey(id))
  {
    match Post(d.bank, d.payments[topup].account, -amount, Some(DebitKey(id)))
    case Some(posted) =>
      KeysApart(id, id);
      PostKeys(d.bank, d.payments[topup].account, -amount, DebitKey(id), posted);
  }

  // ---------------------------------------------------------------- refunds no webhook reaches

  /** The calls about other rows. */
  function Others(steps: seq<Step>, row: nat): seq<Step> {
    if steps == [] then []
    else
      var step := steps[|steps| - 1];
      Others(steps[..|steps| - 1], row) + (if step.Deliver? && step.row == row then [] else [step])
  }

  lemma RunNext(s: Traffic, steps: seq<Step>, step: Step)
    ensures Run(s, steps + [step]) == Apply(Run(s, steps), step)
  {
    assert (steps + [step])[..|steps|] == steps;
  }

  /** A row no webhook hears of stays as it is, and calls about it might as well not come. */
  lemma {:induction false} UnheardRowStays(s: Traffic, steps: seq<Step>, i: nat)
    requires i < |s.d.payments| && !Hears(s.d.payments[i]) && !Busy(s, i)
    ensures var e := Run(s, steps);
      |e.d.payments| == |s.d.payments| && e.d.payments[i] == s.d.payments[i] && !Busy(e, i)
    ensures Run(s, steps) == Run(s, Others(steps, i))
  {
    if steps != [] {
      var front, step := steps[..|steps| - 1], steps[|steps| - 1];
      UnheardRowStays(s, front, i);
      RunNext(s, Others(front, i), step);
      assert step.Deliver? && step.row == i ==> Others(steps, i) == Others(front, i);
    }
  }

  lemma {:induction false} NobodyActs(s: Traffic, steps: seq<Step>, i: nat)
    requires forall h :: 0 <= h < |s.calls| ==> s.calls[h].Waiting?
    requires i < |s.d.payments| && !Hears(s.d.payments[i])
    requires forall k :: 0 <= k < |steps| && steps[k].Deliver? ==> steps[k].row == i
    ensures Run(s, steps) == s
  {
    if steps != [] {
      NobodyActs(s, steps[..|steps| - 1], i);
    }
  }

  /** A refund is out of reach once it is refused, failed in the gateway's answer, or its row
      could not be written after the answer: whatever webhooks follow, in whatever overlap,
      those about it might as well not come. If there are no others, wallet, ledger and headroom
      stay as the answer left them: after a failure in the answer the customer's money stays
      taken, and if the row was not written the headroom stays taken as well. */
  lemma {:induction false} OutOfReach(d: Desk, topup: nat, amount: int, id: Uuid, key: string, created: int,
        g: Gateway, recorded: bool, calls: nat, steps: seq<Step>)
    requires Clear(d, topup, amount, id, key) && !(recorded && g == InFlight)
    ensures var e := Start(AfterRefund(d, topup, amount, id, key, created, g, recorded), calls);
      var a, n := d.payments[topup].account, |d.payments|;
      && Run(e, steps) == Run(e, Others(steps, n))
      && ((forall k :: 0 <= k < |steps| && steps[k].Deliver? ==> steps[k].row == n) ==>
           var f := Run(e, steps).d;
           && a in f.bank.balances && topup < |f.payments|
           && f.bank.balances[a] == d.bank.balances[a] - (if g == Rejected then 0 else amount)
           && LedgerSum(f.bank.entries, a) == LedgerSum(d.bank.entries, a) - (if g == Rejected then 0 else amount)
           && Headroom(f.payments, topup)
              == Headroom(d.payments, topup) - (if recorded && g in {Rejected, FailedAtOnce} then 0 else amount))
  {
    RefundOutcome(d, topup, amount, id, key, created, g, recorded);
    var e := Start(AfterRefund(d, topup, amount, id, key, created, g, recorded), calls);
    UnheardRowStays(e, steps, |d.payments|);
    if forall k :: 0 <= k < |steps| && steps[k].Deliver? ==> steps[k].row == |d.payments| {
      NobodyActs(e, steps, |d.payments|);
    }
  }
}
