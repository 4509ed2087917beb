/** Refunding a wallet top-up back to the card it was paid with: the headroom left on each
    top-up, the choice of a top-up, the racing check-then-insert, and what each answer of the
    gateway leaves behind. */
module Refunds {
  import opened Common
  import opened Ledger

  datatype Kind = TopUp | Refund | Other

  datatype Status = Pending | Processing | Completed | Failed | Reversed

  /** A payments row; foreign keys are positions, `id` is its UUID text. `linked` says that a
      refund row holds the gateway's identifier of the refund, by which webhooks find it. */
  datatype Payment = Payment(id: Uuid, key: string, account: AccountId, kind: Kind, amount: int, status: Status,
                             charged: bool, created: int, refundOf: Option<nat>, linked: bool)

  predicate Active(p: Payment) { p.status in {Status.Pending, Processing, Completed} }

  predicate RefundsOf(p: Payment, topup: nat) {
    p.kind == Refund && p.refundOf.Some? && p.refundOf.value == topup
  }

  function RefundValue(p: Payment, topup: nat): int {
    if RefundsOf(p, topup) && Active(p) then p.amount else 0
  }

  function RefundColumn(payments: seq<Payment>, topup: nat): seq<int> {
    seq(|payments|, i requires 0 <= i < |payments| => RefundValue(payments[i], topup))
  }

  /** SumActiveRefundsAgainstPayment. */
  function ActiveRefunds(payments: seq<Payment>, topup: nat): int {
    Sum(RefundColumn(payments, topup))
  }

  function Headroom(payments: seq<Payment>, topup: nat): int
    requires topup < |payments|
  {
    payments[topup].amount - ActiveRefunds(payments, topup)
  }

  /** The table's unique idempotency key refuses a second row under a key. */
  predicate KeyUsed(payments: seq<Payment>, key: string) {
    exists i :: 0 <= i < |payments| && payments[i].key == key
  }

  lemma ActiveAppend(payments: seq<Payment>, p: Payment, topup: nat)
    ensures ActiveRefunds(payments + [p], topup) == ActiveRefunds(payments, topup) + RefundValue(p, topup)
  {
    assert RefundColumn(payments + [p], topup) == RefundColumn(payments, topup) + [RefundValue(p, topup)];
    SumAppend(RefundColumn(payments, topup), RefundValue(p, topup));
  }

  lemma ActiveUpdate(payments: seq<Payment>, i: nat, p: Payment, topup: nat)
    requires i < |payments|
    ensures ActiveRefunds(payments[i := p], topup)
         == ActiveRefunds(payments, topup) - RefundValue(payments[i], topup) + RefundValue(p, topup)
  {
    assert RefundColumn(payments[i := p], topup) == RefundColumn(payments, topup)[i := RefundValue(p, topup)];
    SumUpdate(RefundColumn(payments, topup), i, RefundValue(p, topup));
  }

  // ---------------------------------------------------------------- racing refunds

  /** A worker that has passed the headroom check but not yet inserted its refund row. */
  datatype Pc = Idle | Checked(topup: nat, amount: int)

  datatype World = World(payments: seq<Payment>, workers: seq<Pc>)

  datatype Step =
    | Arrive(payment: Payment)
    | Check(worker: nat, topup: nat, amount: int)
    | Insert(worker: nat, id: Uuid, key: string, created: int)
    | GiveUp(worker: nat)
    | SetStatus(row: nat, to: Status)

  /** A completed top-up that was really charged. */
  predicate Refundable(p: Payment) { p.kind == TopUp && p.status == Completed && p.charged }

  predicate Passes(payments: seq<Payment>, topup: nat, amount: int) {
    0 < amount && topup < |payments| && Refundable(payments[topup]) && amount <= Headroom(payments, topup)
  }

  function RefundRow(payments: seq<Payment>, topup: nat, amount: int, id: Uuid, key: string, created: int): Payment
    requires topup < |payments|
  {
    Payment(id, key, payments[topup].account, Refund, amount, Status.Pending, false, created, Some(topup), false)
  }

  predicate Inserts(s: World, step: Step) {
    && step.Insert? && step.worker < |s.workers| && s.workers[step.worker].Checked?
    && s.workers[step.worker].topup < |s.payments| && s.workers[step.worker].amount > 0
    && !KeyUsed(s.payments, step.key)
  }

  /** Rows written elsewhere include the refund of a cancelled booking, which names no top-up.
      An insertion under a used key fails and its worker gives up. */
  function Apply(s: World, step: Step): World {
    match step
    case Arrive(p) =>
      if (p.kind == Refund ==> p.refundOf.None?) && !KeyUsed(s.payments, p.key)
      then s.(payments := s.payments + [p]) else s
    case Check(w, t, amount) =>
      if w < |s.workers| && s.workers[w].Idle? && Passes(s.payments, t, amount)
      then s.(workers := s.workers[w := Checked(t, amount)]) else s
    case Insert(w, id, key, created) =>
      if Inserts(s, step)
      then World(s.payments + [RefundRow(s.payments, s.workers[w].topup, s.workers[w].amount, id, key, created)],
                 s.workers[w := Idle])
      else if w < |s.workers| then s.(workers := s.workers[w := Idle]) else s
    case GiveUp(w) => if w < |s.workers| then s.(workers := s.workers[w := Idle]) else s
    case SetStatus(p, to) =>
      if p < |s.payments| then s.(payments := s.payments[p := s.payments[p].(status := to)]) else s
  }

  function Run(s: World, steps: seq<Step>): World {
    if steps == [] then s else Apply(Run(s, steps[..|steps| - 1]), steps[|steps| - 1])
  }

  /** A free worker goes on to insert exactly when the top-up was completed and charged and the
      amount is positive and within the headroom. */
  lemma ChecksIff(s: World, w: nat, topup: nat, amount: int)
    requires w < |s.workers| && topup < |s.payments|
    ensures var t := s.payments[topup];
      Apply(s, Check(w, topup, amount)) ==
        if s.workers[w] == Idle && t.kind == TopUp && t.status == Completed && t.charged
           && 0 < amount <= t.amount - ActiveRefunds(s.payments, topup)
        then s.(workers := s.workers[w := Checked(topup, amount)]) else s
  {
  }

  /** No top-up has been refunded beyond its own amount. */
  ghost predicate Bounded(payments: seq<Payment>) {
    forall t {:trigger Headroom(payments, t)} :: 0 <= t < |payments| && payments[t].kind == TopUp ==>
      Headroom(payments, t) >= 0
  }

  ghost predicate BoundedThroughout(s: World, steps: seq<Step>)
    decreases |steps|
  {
    && Bounded(Run(s, steps).payments)
    && (steps == [] || BoundedThroughout(s, steps[..|steps| - 1]))
  }

  /** The step makes an inactive refund of a top-up active again. */
  predicate Revives(s: World, step: Step) {
    && step.SetStatus? && step.row < |s.payments| && s.payments[step.row].kind == Refund
    && s.payments[step.row].refundOf.Some? && s.payments[step.row].refundOf.value < |s.payments|
    && s.payments[s.payments[step.row].refundOf.value].kind == TopUp
    && !Active(s.payments[step.row]) && Active(s.payments[step.row].(status := step.to))
  }

  /** The refund about to be inserted, or made active again, is still covered by the headroom. */
  predicate Covered(s: World, step: Step) {
    && (Inserts(s, step) ==> s.workers[step.worker].amount <= Headroom(s.payments, s.workers[step.worker].topup))
    && (Revives(s, step) ==> s.payments[step.row].amount <= Headroom(s.payments, s.payments[step.row].refundOf.value))
  }

  ghost predicate AllCovered(s: World, steps: seq<Step>)
    decreases |steps|
  {
    steps == [] || (AllCovered(s, steps[..|steps| - 1]) && Covered(Run(s, steps[..|steps| - 1]), steps[|steps| - 1]))
  }

  /** Refunds of a top-up are positive and name an existing row; a check was made of a top-up. */
  ghost predicate Shaped(s: World) {
    && (forall i :: 0 <= i < |s.payments| && s.payments[i].kind == Refund && s.payments[i].refundOf.Some? ==>
          s.payments[i].amount > 0 && s.payments[i].refundOf.value < |s.payments|)
    && (forall i :: 0 <= i < |s.payments| && s.payments[i].kind == TopUp ==> s.payments[i].amount >= 0)
    && (forall w :: 0 <= w < |s.workers| && s.workers[w].Checked? ==>
          s.workers[w].topup < |s.payments| && s.payments[s.workers[w].topup].kind == TopUp)
  }

  /** New top-ups are for non-negative amounts. */
  predicate SaneArrival(step: Step) { step.Arrive? && step.payment.kind == TopUp ==> step.payment.amount >= 0 }

  lemma NoRefundsYet(s: World)
    requires Shaped(s)
    ensures ActiveRefunds(s.payments, |s.payments|) == 0
  {
    SumZero(RefundColumn(s.payments, |s.payments|));
  }

  lemma StepShaped(s: World, step: Step)
    requires Shaped(s) && SaneArrival(step)
    ensures Shaped(Apply(s, step)) && |s.payments| <= |Apply(s, step).payments|
  {
  }

  lemma ArriveBounded(s: World, p: Payment)
    requires Shaped(s) && Bounded(s.payments) && (p.kind == Refund ==> p.refundOf.None?)
      && (p.kind == TopUp ==> p.amount >= 0)
    ensures Bounded(s.payments + [p])
  {
    forall t | 0 <= t < |s.payments + [p]| && (s.payments + [p])[t].kind == TopUp
      ensures Headroom(s.payments + [p], t) >= 0
    {
      ActiveAppend(s.payments, p, t);
      if t == |s.payments| {
        NoRefundsYet(s);
      } else {
        assert Headroom(s.payments, t) >= 0;
      }
    }
  }

  /** A status change keeps every top-up bounded exactly when it revives no refund beyond the
      headroom. */
  lemma StatusBoundedIff(s: World, i: nat, to: Status)
    requires Shaped(s) && Bounded(s.payments) && i < |s.payments|
    ensures Bounded(s.payments[i := s.payments[i].(status := to)]) <==> Covered(s, SetStatus(i, to))
  {
    var p := s.payments[i].(status := to);
    var after := s.payments[i := p];
    forall t | 0 <= t < |s.payments|
      ensures Headroom(after, t) == Headroom(s.payments, t) + RefundValue(s.payments[i], t) - RefundValue(p, t)
    {
      ActiveUpdate(s.payments, i, p, t);
    }
    if Revives(s, SetStatus(i, to)) {
      assert Headroom(after, p.refundOf.value) >= 0 <==> Covered(s, SetStatus(i, to));
    }
    forall t | 0 <= t < |after| && after[t].kind == TopUp && !(Revives(s, SetStatus(i, to)) && t == p.refundOf.value)
      ensures Headroom(after, t) >= 0
    {
      assert Headroom(s.payments, t) >= 0;
    }
  }

  /** An insertion keeps every top-up bounded exactly when it is still covered. */
  lemma InsertBoundedIff(s: World, step: Step)
    requires Shaped(s) && Bounded(s.payments) && Inserts(s, step)
    ensures Bounded(Apply(s, step).payments) <==> Covered(s, step)
  {
    var topup, amount := s.workers[step.worker].topup, s.workers[step.worker].amount;
    var row := RefundRow(s.payments, topup, amount, step.id, step.key, step.created);
    var after := s.payments + [row];
    forall t | 0 <= t < |s.payments|
      ensures Headroom(after, t) == Headroom(s.payments, t) - (if t == topup then amount else 0)
    {
      ActiveAppend(s.payments, row, t);
    }
    assert Headroom(after, topup) >= 0 <==> Covered(s, step);
    forall t | 0 <= t < |after| && after[t].kind == TopUp && t != topup ensures Headroom(after, t) >= 0 {
      assert Headroom(s.payments, t) >= 0;
    }
  }

  lemma StepBoundedIff(s: World, step: Step)
    requires Shaped(s) && Bounded(s.payments) && SaneArrival(step)
    ensures Bounded(Apply(s, step).payments) <==> Covered(s, step)
  {
    match step
    case Arrive(p) => if p.kind == Refund ==> p.refundOf.None? { ArriveBounded(s, p); }
    case Insert(_, _, _, _) => if Inserts(s, step) { InsertBoundedIff(s, step); }
    case SetStatus(i, to) => if i < |s.payments| { StatusBoundedIff(s, i, to); }
    case _ =>
  }

  /** Over every run the active refunds stay within every top-up's amount throughout exactly
      when each refund is inserted, or made active again, for no more than the headroom at that
      moment. */
  lemma {:induction false} BoundedIffCovered(s: World, steps: seq<Step>)
    requires Shaped(s) && Bounded(s.payments)
    requires forall i :: 0 <= i < |steps| ==> SaneArrival(steps[i])
    ensures Shaped(Run(s, steps))
    ensures BoundedThroughout(s, steps) <==> AllCovered(s, steps)
  {
    if steps != [] {
      var front, last := steps[..|steps| - 1], steps[|steps| - 1];
      BoundedIffCovered(s, front);
      StepShaped(Run(s, front), last);
      if BoundedThroughout(s, front) {
        BoundedThroughoutEnds(s, front);
        StepBoundedIff(Run(s, front), last);
      }
    }
  }

  lemma BoundedThroughoutEnds(s: World, steps: seq<Step>)
    requires BoundedThroughout(s, steps)
    ensures Bounded(Run(s, steps).payments)
  {
  }

  ghost predicate KeysUnique(payments: seq<Payment>) {
    forall i, k :: 0 <= i < k < |payments| ==> payments[i].key != payments[k].key
  }

  /** In every run no two rows share an idempotency key. */
  lemma {:induction false} KeysStayUnique(s: World, steps: seq<Step>)
    requires KeysUnique(s.payments)
    ensures KeysUnique(Run(s, steps).payments)
  {
    if steps != [] {
      KeysStayUnique(s, steps[..|steps| - 1]);
    }
  }

  /** The check and the insertion are separate statements: two workers checking the same
      top-up before either inserts refund it twice over. */
  lemma RaceExceeds(t: Payment, id0: Uuid, id1: Uuid, key0: string, key1: string)
    requires Refundable(t) && t.amount > 0 && key0 != key1 && key0 != t.key && key1 != t.key
    requires id0 != id1 && id0 != t.id && id1 != t.id
    ensures var s := World([t], [Idle, Idle]);
      var s1 := Apply(s, Check(0, 0, t.amount));
      var s2 := Apply(s1, Check(1, 0, t.amount));
      var s3 := Apply(s2, Insert(0, id0, key0, 0));
      var s4 := Apply(s3, Insert(1, id1, key1, 0));
      && Covered(s2, Insert(0, id0, key0, 0)) && !Covered(s3, Insert(1, id1, key1, 0))
      && Headroom(s4.payments, 0) == -t.amount
  {
    var s := World([t], [Idle, Idle]);
    assert RefundColumn([t], 0) == [] + [0];
    SumAppend([], 0);
    var row0 := RefundRow([t], 0, t.amount, id0, key0, 0);
    ActiveAppend([t], row0, 0);
    var row1 := RefundRow([t] + [row0], 0, t.amount, id1, key1, 0);
    ActiveAppend([t] + [row0], row1, 0);
    var s2 := World([t], [Checked(0, t.amount), Checked(0, t.amount)]);
    assert Apply(Apply(s, Check(0, 0, t.amount)), Check(1, 0, t.amount)) == s2;
    var s3 := World([t] + [row0], [Idle, Checked(0, t.amount)]);
    assert Apply(s2, Insert(0, id0, key0, 0)) == s3;
  }

  // ---------------------------------------------------------------- compensation

  /** What the gateway reports back synchronously. */
  datatype Gateway = Rejected | Processed | FailedAtOnce | InFlight

  datatype Desk = Desk(payments: seq<Payment>, bank: Bank)

  function DebitKey(id: Uuid): string { "source_refund_" + id }
  function ReversalKey(id: Uuid): string { "source_refund_reversal_" + id }

  lemma KeysApart(x: Uuid, y: Uuid)
    ensures DebitKey(x) != ReversalKey(y)
    ensures ReversalKey(x) == ReversalKey(y) ==> x == y
  {
    assert |DebitKey(x)| != |ReversalKey(y)|;
    assert x == ReversalKey(x)[23..] && y == ReversalKey(y)[23..];
  }

  /** writeSourceRefundReversal: a refused ledger entry is ignored and the wallet credited all
      the same. */
  function GiveBack(b: Bank, account: AccountId, id: Uuid, amount: int, creditWallet: bool): Bank {
    var posted := match Post(b, account, amount, Some(ReversalKey(id))) case Some(c) => c case None => b;
    if !creditWallet then posted
    else match Credit(posted, account, amount) case Some(c) => c case None => posted
  }

  function Mark(payments: seq<Payment>, i: nat, to: Status): seq<Payment>
    requires i < |payments|
  {
    payments[i := payments[i].(status := to)]
  }

  /** Phase C keeps the gateway's identifier with the status. */
  function Link(payments: seq<Payment>, i: nat, to: Status): seq<Payment>
    requires i < |payments|
  {
    payments[i := payments[i].(status := to, linked := true)]
  }

  /** The status a gateway answer maps to. */
  function StatusAfter(g: Gateway): Status {
    match g
    case Processed => Completed
    case InFlight => Processing
    case _ => Failed
  }

  /** Phases A to C for a request that has passed every check. The last write to the refund row
      may fail, which is tolerated: `recorded` says whether it landed. */
  function AfterRefund(d: Desk, topup: nat, amount: int, id: Uuid, key: string, created: int,
                       g: Gateway, recorded: bool): Desk
    requires topup < |d.payments|
  {
    var n, account := |d.payments|, d.payments[topup].account;
    var rows := d.payments + [RefundRow(d.payments, topup, amount, id, key, created)];
    var failed := if recorded then Mark(rows, n, Failed) else rows;
    if KeyUsed(d.payments, key) then d
    else
      match Post(d.bank, account, -amount, Some(DebitKey(id)))
      case None => Desk(failed, d.bank)
      case Some(posted) =>
        match Debit(posted, account, amount)
        case None => Desk(failed, GiveBack(posted, account, id, amount, false))
        case Some(debited) =>
          if g == Rejected then Desk(failed, GiveBack(debited, account, id, amount, true))
          else Desk(if recorded then Link(rows, n, StatusAfter(g)) else rows, debited)
  }

  /** Reversing under a fresh key leaves the drift alone; under a used one only the wallet
      moves, so the drift moves by exactly the amount. */
  lemma GiveBackDrift(b: Bank, account: AccountId, id: Uuid, amount: int)
    requires account in b.balances && b.balances[account] >= 0 && amount > 0
    ensures var b' := GiveBack(b, account, id, amount, true);
      && b'.balances == b.balances[account := b.balances[account] + amount]
      && Drift(b', account) == Drift(b, account) + (if HasKey(b.entries, ReversalKey(id)) then amount else 0)
  {
    match Post(b, account, amount, Some(ReversalKey(id)))
    case None => CreditMoves(b, account, amount);
    case Some(c) =>
      PostMoves(b, account, amount, Some(ReversalKey(id)));
      CreditMoves(c, account, amount);
  }

  /** Nothing stands in the way of the debit: the request's row is new, so its two ledger keys
      are unused, and the wallet covers the amount. */
  predicate Clear(d: Desk, topup: nat, amount: int, id: Uuid, key: string) {
    && topup < |d.payments| && d.payments[topup].kind == TopUp && !KeyUsed(d.payments, key)
    && var a := d.payments[topup].account;
       a in d.bank.balances && 0 < amount <= d.bank.balances[a]
       && !HasKey(d.bank.entries, DebitKey(id)) && !HasKey(d.bank.entries, ReversalKey(id))
  }

  /** What a source refund leaves behind. While the gateway works on it or has paid, wallet,
      ledger and headroom are all lower by the amount. A rejected one restores all three. One
      that the gateway reports as failed in its answer gives the headroom back but neither the
      wallet nor the ledger. If the last write to the row fails, the headroom stays taken
      whatever the gateway said, and the row stays without the gateway's identifier. */
  lemma RefundOutcome(d: Desk, topup: nat, amount: int, id: Uuid, key: string, created: int, g: Gateway, recorded: bool)
    requires Clear(d, topup, amount, id, key)
    ensures var a, n := d.payments[topup].account, |d.payments|;
      var e := AfterRefund(d, topup, amount, id, key, created, g, recorded);
      && a in e.bank.balances && |e.payments| == n + 1
      && e.bank.balances[a] == d.bank.balances[a] - (if g == Rejected then 0 else amount)
      && LedgerSum(e.bank.entries, a) == LedgerSum(d.bank.entries, a) - (if g == Rejected then 0 else amount)
      && Headroom(e.payments, topup)
         == Headroom(d.payments, topup) - (if recorded && g in {Rejected, FailedAtOnce} then 0 else amount)
      && var status := if !recorded then Status.Pending else match g
           case Processed => Completed
           case InFlight => Processing
           case Rejected => Failed
           case FailedAtOnce => Failed;
         e.payments == d.payments
           + [Payment(id, key, a, Refund, amount, status, false, created, Some(topup), recorded && g != Rejected)]
  {
    var a := d.payments[topup].account;
    var row := RefundRow(d.payments, topup, amount, id, key, created);
    var rows := d.payments + [row];
    ActiveAppend(d.payments, row, topup);
    ActiveUpdate(rows, |d.payments|, row.(status := StatusAfter(g)), topup);
    ActiveUpdate(rows, |d.payments|, row.(status := StatusAfter(g), linked := true), topup);
    match Post(d.bank, a, -amount, Some(DebitKey(id)))
    case Some(posted) =>
      KeysApart(id, id);
      PostKeys(d.bank, a, -amount, DebitKey(id), posted);
      LedgerAppend(d.bank.entries, posted.entries[|d.bank.entries|], a);
      match Debit(posted, a, amount)
      case Some(debited) =>
        if g == Rejected { GiveBackDrift(debited, a, id, amount); }
  }

  /** When the debit cannot be made, because its ledger entry is refused or the wallet no longer
      covers it, nobody has lost anything: wallets and ledger sums are as before, and the failed
      row takes no headroom. */
  lemma NoDebitNoLoss(d: Desk, topup: nat, amount: int, id: Uuid, key: string, created: int, g: Gateway)
    requires topup < |d.payments| && d.payments[topup].kind == TopUp && !KeyUsed(d.payments, key)
    requires var a := d.payments[topup].account;
      || a !in d.bank.balances || HasKey(d.bank.entries, DebitKey(id))
      || (d.bank.balances[a] < amount && !HasKey(d.bank.entries, ReversalKey(id)))
    ensures var e := AfterRefund(d, topup, amount, id, key, created, g, true);
      && e.bank.balances == d.bank.balances
      && (forall x :: LedgerSum(e.bank.entries, x) == LedgerSum(d.bank.entries, x))
      && |e.payments| == |d.payments| + 1 && e.payments[|d.payments|].status == Failed
      && Headroom(e.payments, topup) == Headroom(d.payments, topup)
  {
    var a, b := d.payments[topup].account, d.bank;
    var row := RefundRow(d.payments, topup, amount, id, key, created);
    ActiveAppend(d.payments, row, topup);
    ActiveUpdate(d.payments + [row], |d.payments|, row.(status := Failed), topup);
    match Post(b, a, -amount, Some(DebitKey(id)))
    case None =>
    case Some(posted) =>
      KeysApart(id, id);
      PostKeys(b, a, -amount, DebitKey(id), posted);
      var back := Post(posted, a, amount, Some(ReversalKey(id))).value;
      forall x ensures LedgerSum(back.entries, x) == LedgerSum(b.entries, x) {
        LedgerAppend(b.entries, posted.entries[|b.entries|], x);
        LedgerAppend(posted.entries, back.entries[|posted.entries|], x);
      }
  }

  /** What counts against a top-up: each refund row naming it, pending, in flight or paid, by its
      amount. */
  lemma HeadroomCounts(payments: seq<Payment>, p: Payment, topup: nat)
    requires topup < |payments|
    ensures ActiveRefunds([], topup) == 0
    ensures Headroom(payments + [p], topup) == Headroom(payments, topup)
      - (if p.kind == Refund && p.refundOf == Some(topup) && p.status in {Status.Pending, Processing, Completed}
         then p.amount else 0)
  {
    assert RefundColumn([], topup) == [];
    ActiveAppend(payments, p, topup);
  }

  // ---------------------------------------------------------------- the repository and its service

  datatype RefundResult = BadRequest | Existing(row: nat) | NotRefundable | OverHeadroom | OverBalance | Tried(row: nat)

  class PaymentDesk {
    var payments: seq<Payment>
    const accounts: Accounts

    function Value(): Desk
      reads this, accounts
    {
      Desk(payments, accounts.Value())
    }

    constructor (accounts: Accounts)
      ensures this.accounts == accounts && payments == []
    {
      this.accounts, payments := accounts, [];
    }

    /** Refused under a key that is already in the table. */
    method Create(p: Payment) returns (ok: bool)
      modifies this
      ensures ok <==> !KeyUsed(old(payments), p.key)
      ensures payments == if ok then old(payments) + [p] else old(payments)
    {
      var existing := FindByKey(p.key);
      ok := existing.None?;
      if ok {
        payments := payments + [p];
      }
    }

    method UpdateStatus(i: nat, to: Status)
      modifies this
      ensures i < old(|payments|) ==> payments == old(payments)[i := old(payments)[i].(status := to)]
      ensures i >= old(|payments|) ==> payments == old(payments)
    {
      if i < |payments| {
        payments := payments[i := payments[i].(status := to)];
      }
    }

    method SumActiveRefundsAgainstPayment(topup: nat) returns (sum: int)
      ensures sum == ActiveRefunds(payments, topup)
    {
      sum := 0;
      assert RefundColumn(payments[..0], topup) == [];
      for i := 0 to |payments|
        invariant sum == ActiveRefunds(payments[..i], topup)
      {
        assert payments[..i + 1] == payments[..i] + [payments[i]];
        ActiveAppend(payments[..i], payments[i], topup);
        if RefundsOf(payments[i], topup) && Active(payments[i]) {
          sum := sum + payments[i].amount;
        }
      }
      assert payments[..|payments|] == payments;
    }

    /** The row qualifies: this account's refundable top-up with that much headroom. */
    predicate Qualifies(i: nat, account: AccountId, minHeadroom: int)
      requires i < |payments|
      reads this
    {
      payments[i].account == account && Refundable(payments[i]) && Headroom(payments, i) >= minHeadroom
    }

    /** The newest qualifying top-up, and none only when none qualifies. */
    method FindMostRecentRefundableTopup(account: AccountId, minHeadroom: int) returns (found: Option<nat>)
      ensures found.Some? ==> found.value < |payments| && Qualifies(found.value, account, minHeadroom)
      ensures forall i :: 0 <= i < |payments| ==>
        var p := payments[i];
        Qualifies(i, account, minHeadroom) <==>
          p.account == account && p.kind == TopUp && p.status == Completed && p.charged
          && p.amount - ActiveRefunds(payments, i) >= minHeadroom
      ensures found.Some? ==> forall i :: 0 <= i < |payments| && Qualifies(i, account, minHeadroom) ==>
        payments[i].created <= payments[found.value].created
      ensures found.None? ==> forall i :: 0 <= i < |payments| ==> !Qualifies(i, account, minHeadroom)
    {
      found := None;
      for i := 0 to |payments|
        invariant found.Some? ==> found.value < i && Qualifies(found.value, account, minHeadroom)
        invariant found.Some? ==> forall k :: 0 <= k < i && Qualifies(k, account, minHeadroom) ==>
          payments[k].created <= payments[found.value].created
        invariant found.None? ==> forall k :: 0 <= k < i ==> !Qualifies(k, account, minHeadroom)
      {
        if payments[i].account == account && Refundable(payments[i]) {
          var used := SumActiveRefundsAgainstPayment(i);
          if payments[i].amount - used >= minHeadroom
            && (found.None? || payments[found.value].created < payments[i].created)
          {
            found := Some(i);
          }
        }
      }
    }

    method FindByKey(key: string) returns (found: Option<nat>)
      ensures found.Some? ==> found.value < |payments| && payments[found.value].key == key
      ensures found.None? ==> forall i :: 0 <= i < |payments| ==> payments[i].key != key
    {
      for i := 0 to |payments|
        invariant forall k :: 0 <= k < i ==> payments[k].key != key
      {
        if payments[i].key == key { return Some(i); }
      }
      found := None;
    }

    /** The whole row is written, the gateway's identifier with it. */
    method Update(i: nat, to: Status)
      modifies this
      ensures i < old(|payments|) ==> payments == old(payments)[i := old(payments)[i].(status := to, linked := true)]
      ensures i >= old(|payments|) ==> payments == old(payments)
    {
      if i < |payments| {
        payments := payments[i := payments[i].(status := to, linked := true)];
      }
    }

    /** RefundTopUpToSource run on its own: every check in order, then the three phases. */
    method RefundTopUpToSource(topup: nat, amount: int, id: Uuid, key: string, created: int, g: Gateway, recorded: bool)
      returns (r: RefundResult)
      modifies this, accounts
      ensures !r.Tried? ==> Value() == old(Value())
      ensures match r
        case BadRequest => amount <= 0 || key == ""
        case Existing(i) => i < |payments| && payments[i].key == key
        case NotRefundable =>
          topup < |payments| ==>
            payments[topup].kind != TopUp || payments[topup].status != Completed || !payments[topup].charged
        case OverHeadroom => topup < |payments| && amount > Headroom(payments, topup)
        case OverBalance =>
          topup < |payments| &&
          (payments[topup].account in accounts.balances ==> amount > accounts.balances[payments[topup].account])
        case Tried(i) =>
          && key != "" && (forall k :: 0 <= k < old(|payments|) ==> old(payments)[k].key != key)
          && i == old(|payments|) && topup < i && old(payments)[topup].kind == TopUp
          && old(payments)[topup].status == Completed && old(payments)[topup].charged
          && 0 < amount <= Headroom(old(payments), topup)
          && Value() == AfterRefund(old(Value()), topup, amount, id, key, created, g, recorded)
    {
      if amount <= 0 || key == "" { return BadRequest; }
      var existing := FindByKey(key);
      if existing.Some? { return Existing(existing.value); }
      if topup >= |payments| || !Refundable(payments[topup]) { return NotRefundable; }
      var used := SumActiveRefundsAgainstPayment(topup);
      if amount > payments[topup].amount - used { return OverHeadroom; }
      var account := payments[topup].account;
      if account !in accounts.balances || amount > accounts.balances[account] { return OverBalance; }
      r := Tried(|payments|);
      Attempt(topup, amount, id, key, created, g, recorded);
    }

    method Attempt(topup: nat, amount: int, id: Uuid, key: string, created: int, g: Gateway, recorded: bool)
      requires topup < |payments|
      modifies this, accounts
      ensures Value() == AfterRefund(old(Value()), topup, amount, id, key, created, g, recorded)
    {
      var row, account := |payments|, payments[topup].account;
      var ok := Create(RefundRow(payments, topup, amount, id, key, created));
      if !ok { return; }
      var posted := accounts.Create(account, -amount, Some(DebitKey(id)));
      if !posted.Posted? {
        if recorded { UpdateStatus(row, Failed); }
        return;
      }
      var debited := accounts.DebitWallet(account, amount);
      if debited != Done {
        WriteReversal(account, id, amount, false);
        if recorded { UpdateStatus(row, Failed); }
        return;
      }
      if g == Rejected {
        WriteReversal(account, id, amount, true);
        if recorded { UpdateStatus(row, Failed); }
        return;
      }
      var to: Status;
      match g {
        case Processed => to := Completed;
        case FailedAtOnce => to := Failed;
        case _ => to := Processing;
      }
      if recorded { Update(row, to); }
    }

    method WriteReversal(account: AccountId, id: Uuid, amount: int, creditWallet: bool)
      modifies accounts
      ensures accounts.Value() == GiveBack(old(accounts.Value()), account, id, amount, creditWallet)
    {
      var posted := accounts.Create(account, amount, Some(ReversalKey(id)));
      if creditWallet {
        var credited := accounts.CreditWallet(account, amount);
      }
    }
  }
}
