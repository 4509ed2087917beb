/** Finishing a wallet top-up: several services race to reserve a payment by inserting one
    keyed ledger entry, and the winner credits the wallet in a second step. */
module TopUp {
  import opened Common
  import opened Ledger

  /** A pending top-up and what has happened to it. `reserved` and `credits` record history:
      its ledger entry exists, and how often the wallet was credited for it. */
  datatype TopUp = TopUp(id: Uuid, account: AccountId, amount: int, completed: bool, reserved: bool, credits: nat)

  /** Where a worker stands: it owes the credit of a reservation it won, or is about to mark
      the payment completed. */
  datatype Pc = Idle | Owes(payment: nat) | Marks(payment: nat)

  datatype World = World(bank: Bank, payments: seq<TopUp>, workers: seq<Pc>)

  datatype Step =
    | Open(id: Uuid, account: AccountId, amount: int)
    | Reserve(worker: nat, payment: nat)
    | Pay(worker: nat)
    | Mark(worker: nat)
    | Crash(worker: nat)
    | Elsewhere(movement: Movement)

  function Key(id: Uuid): string { "topup_ledger_" + id }

  lemma KeyInjective(x: Uuid, y: Uuid)
    requires Key(x) == Key(y)
    ensures x == y
  {
    assert x == Key(x)[13..] && y == Key(y)[13..];
  }

  /** Movements of other features, paired or journal-only, never use a top-up's key. */
  ghost predicate Foreign(m: Movement) {
    m.key.Some? ==> forall id: Uuid :: m.key.value != Key(id)
  }

  // ---------------------------------------------------------------- steps

  /** Worker `w` takes up payment `p`: a completed one is left alone; otherwise it tries to
      insert the entry, and only the winner goes on to credit. */
  function ReserveStep(s: World, w: nat, p: nat): World
    requires w < |s.workers| && p < |s.payments|
  {
    var t := s.payments[p];
    if t.completed then s
    else
      match Post(s.bank, t.account, t.amount, Some(Key(t.id)))
      case Some(b) => World(b, s.payments[p := t.(reserved := true)], s.workers[w := Owes(p)])
      case None => s.(workers := s.workers[w := Marks(p)])
  }

  /** The credit; if it fails the worker gives up with an error. */
  function PayStep(s: World, w: nat, p: nat): World
    requires w < |s.workers| && p < |s.payments|
  {
    var t := s.payments[p];
    match Credit(s.bank, t.account, t.amount)
    case Some(b) => World(b, s.payments[p := t.(credits := t.credits + 1)], s.workers[w := Marks(p)])
    case None => s.(workers := s.workers[w := Idle])
  }

  function MarkStep(s: World, w: nat, p: nat): World
    requires w < |s.workers| && p < |s.payments|
  {
    s.(payments := s.payments[p := s.payments[p].(completed := true)], workers := s.workers[w := Idle])
  }

  /** A step that is not enabled changes nothing. */
  ghost function Apply(s: World, step: Step): World {
    match step
    case Open(id, account, amount) =>
      if account in s.bank.balances && (forall i :: 0 <= i < |s.payments| ==> s.payments[i].id != id)
        && !HasKey(s.bank.entries, Key(id))
      then s.(payments := s.payments + [TopUp(id, account, amount, false, false, 0)])
      else s
    case Reserve(w, p) =>
      if w < |s.workers| && s.workers[w].Idle? && p < |s.payments| then ReserveStep(s, w, p) else s
    case Pay(w) =>
      if w < |s.workers| && s.workers[w].Owes? && s.workers[w].payment < |s.payments|
      then PayStep(s, w, s.workers[w].payment) else s
    case Mark(w) =>
      if w < |s.workers| && s.workers[w].Marks? && s.workers[w].payment < |s.payments|
      then MarkStep(s, w, s.workers[w].payment) else s
    case Crash(w) => if w < |s.workers| then s.(workers := s.workers[w := Idle]) else s
    case Elsewhere(m) => if Foreign(m) then s.(bank := Move(s.bank, m)) else s
  }

  ghost function Run(s: World, steps: seq<Step>): World {
    if steps == [] then s else Apply(Run(s, steps[..|steps| - 1]), steps[|steps| - 1])
  }

  // ---------------------------------------------------------------- what every step keeps

  predicate Outstanding(t: TopUp) { t.reserved && t.credits == 0 }

  function OwedColumn(payments: seq<TopUp>, a: AccountId): seq<int> {
    seq(|payments|, i requires 0 <= i < |payments| =>
      if payments[i].account == a && Outstanding(payments[i]) then payments[i].amount else 0)
  }

  /** Money of `a` reserved in the ledger but not yet in the wallet. */
  function Owed(payments: seq<TopUp>, a: AccountId): int {
    Sum(OwedColumn(payments, a))
  }

  /** The reservation of `t` exists exactly when recorded, and nobody was credited without it
      or twice. */
  ghost predicate PaymentOk(b: Bank, t: TopUp) {
    && t.account in b.balances && t.credits <= 1
    && (t.reserved <==> HasKey(b.entries, Key(t.id)))
    && (t.credits > 0 || t.completed ==> t.reserved)
  }

  ghost predicate PaymentsOk(s: World) {
    && (forall i :: 0 <= i < |s.payments| ==> PaymentOk(s.bank, s.payments[i]))
    && (forall i, k :: 0 <= i < k < |s.payments| ==> s.payments[i].id != s.payments[k].id)
  }

  ghost predicate WorkersOk(s: World) {
    && (forall w :: 0 <= w < |s.workers| && !s.workers[w].Idle? ==>
          s.workers[w].payment < |s.payments| && s.payments[s.workers[w].payment].reserved)
    && (forall w :: 0 <= w < |s.workers| && s.workers[w].Owes? ==> s.payments[s.workers[w].payment].credits == 0)
    && (forall v, w :: 0 <= v < w < |s.workers| && s.workers[v].Owes? ==> s.workers[v] != s.workers[w])
  }

  ghost predicate Inv(s: World) {
    PaymentsOk(s) && WorkersOk(s)
  }

  /** Ledger sum minus stored balance minus reserved-but-uncredited money. */
  function Gap(s: World, a: AccountId): int
    requires a in s.bank.balances
  {
    -Drift(s.bank, a) - Owed(s.payments, a)
  }

  /** What the step writes to the journal of `a` without moving its wallet. */
  ghost function Journaled(s: World, step: Step, a: AccountId): int {
    if step.Elsewhere? && Foreign(step.movement) && step.movement.account == a
    then -DriftOf(s.bank, step.movement) else 0
  }

  ghost function JournaledIn(s: World, steps: seq<Step>, a: AccountId): int {
    if steps == [] then 0
    else
      var front := steps[..|steps| - 1];
      JournaledIn(s, front, a) + Journaled(Run(s, front), steps[|steps| - 1], a)
  }

  lemma OwedUpdate(payments: seq<TopUp>, p: nat, t: TopUp, a: AccountId)
    requires p < |payments| && t.account == payments[p].account && t.amount == payments[p].amount
    ensures Owed(payments[p := t], a) == Owed(payments, a)
      + (if t.account != a then 0
         else (if Outstanding(t) then t.amount else 0) - (if Outstanding(payments[p]) then t.amount else 0))
  {
    var v := if t.account == a && Outstanding(t) then t.amount else 0;
    assert OwedColumn(payments[p := t], a) == OwedColumn(payments, a)[p := v];
    SumUpdate(OwedColumn(payments, a), p, v);
  }

  lemma ReserveGap(s: World, w: nat, p: nat, a: AccountId)
    requires Inv(s) && w < |s.workers| && s.workers[w].Idle? && p < |s.payments| && a in s.bank.balances
    ensures a in ReserveStep(s, w, p).bank.balances && Gap(ReserveStep(s, w, p), a) == Gap(s, a)
  {
    var t := s.payments[p];
    assert PaymentOk(s.bank, t);
    if !t.completed {
      match Post(s.bank, t.account, t.amount, Some(Key(t.id)))
      case None =>
      case Some(b) =>
        PostMoves(s.bank, t.account, t.amount, Some(Key(t.id)));
        OwedUpdate(s.payments, p, t.(reserved := true), a);
    }
  }

  lemma OtherPaymentAfterPost(b: Bank, t: TopUp, b': Bank, other: TopUp)
    requires Post(b, t.account, t.amount, Some(Key(t.id))) == Some(b')
    requires PaymentOk(b, other) && other.id != t.id
    ensures PaymentOk(b', other)
  {
    PostKeys(b, t.account, t.amount, Key(t.id), b');
    if Key(other.id) == Key(t.id) { KeyInjective(other.id, t.id); }
  }

  lemma ReserveKeepsPayments(s: World, w: nat, p: nat)
    requires PaymentsOk(s) && w < |s.workers| && s.workers[w].Idle? && p < |s.payments|
    ensures PaymentsOk(ReserveStep(s, w, p))
  {
    var t, s' := s.payments[p], ReserveStep(s, w, p);
    if !t.completed {
      match Post(s.bank, t.account, t.amount, Some(Key(t.id)))
      case None =>
      case Some(b) =>
        PostKeys(s.bank, t.account, t.amount, Key(t.id), b);
        forall i | 0 <= i < |s'.payments| ensures PaymentOk(b, s'.payments[i]) {
          assert PaymentOk(s.bank, s.payments[i]);
          if i != p { OtherPaymentAfterPost(s.bank, t, b, s.payments[i]); }
        }
    }
  }

  lemma ReserveKeepsWorkers(s: World, w: nat, p: nat)
    requires PaymentsOk(s) && WorkersOk(s) && w < |s.workers| && s.workers[w].Idle? && p < |s.payments|
    ensures WorkersOk(ReserveStep(s, w, p))
  {
    assert PaymentOk(s.bank, s.payments[p]);
  }

  lemma PayKeepsPayments(s: World, w: nat)
    requires PaymentsOk(s) && WorkersOk(s) && w < |s.workers| && s.workers[w].Owes?
    ensures PaymentsOk(PayStep(s, w, s.workers[w].payment))
  {
    var s' := PayStep(s, w, s.workers[w].payment);
    forall i | 0 <= i < |s'.payments| ensures PaymentOk(s'.bank, s'.payments[i]) {
      assert PaymentOk(s.bank, s.payments[i]);
    }
  }

  lemma PayKeepsWorkers(s: World, w: nat)
    requires WorkersOk(s) && w < |s.workers| && s.workers[w].Owes?
    ensures WorkersOk(PayStep(s, w, s.workers[w].payment))
  {
  }

  lemma PayGap(s: World, w: nat, a: AccountId)
    requires WorkersOk(s) && w < |s.workers| && s.workers[w].Owes? && a in s.bank.balances
    ensures var s' := PayStep(s, w, s.workers[w].payment); a in s'.bank.balances && Gap(s', a) == Gap(s, a)
  {
    var p := s.workers[w].payment;
    var t := s.payments[p];
    match Credit(s.bank, t.account, t.amount)
    case None =>
    case Some(b) =>
      CreditMoves(s.bank, t.account, t.amount);
      OwedUpdate(s.payments, p, t.(credits := t.credits + 1), a);
  }

  lemma MarkKeepsRecords(s: World, w: nat)
    requires PaymentsOk(s) && WorkersOk(s) && w < |s.workers| && s.workers[w].Marks?
    ensures PaymentsOk(MarkStep(s, w, s.workers[w].payment)) && WorkersOk(MarkStep(s, w, s.workers[w].payment))
  {
    var s' := MarkStep(s, w, s.workers[w].payment);
    forall i | 0 <= i < |s'.payments| ensures PaymentOk(s'.bank, s'.payments[i]) {
      assert PaymentOk(s.bank, s.payments[i]);
    }
  }

  lemma MarkGap(s: World, w: nat, a: AccountId)
    requires WorkersOk(s) && w < |s.workers| && s.workers[w].Marks? && a in s.bank.balances
    ensures Gap(MarkStep(s, w, s.workers[w].payment), a) == Gap(s, a)
  {
    var p := s.workers[w].payment;
    OwedUpdate(s.payments, p, s.payments[p].(completed := true), a);
  }

  lemma OpenKeepsRecords(s: World, id: Uuid, account: AccountId, amount: int)
    requires PaymentsOk(s) && WorkersOk(s)
    ensures PaymentsOk(Apply(s, Open(id, account, amount))) && WorkersOk(Apply(s, Open(id, account, amount)))
  {
    var s' := Apply(s, Open(id, account, amount));
    forall i | 0 <= i < |s'.payments| ensures PaymentOk(s'.bank, s'.payments[i]) {
      if i < |s.payments| { assert PaymentOk(s.bank, s.payments[i]); }
    }
  }

  lemma OpenGap(s: World, id: Uuid, account: AccountId, amount: int, a: AccountId)
    requires a in s.bank.balances
    ensures var s' := Apply(s, Open(id, account, amount)); s'.bank == s.bank && Gap(s', a) == Gap(s, a)
  {
    var s' := Apply(s, Open(id, account, amount));
    if s' != s {
      assert OwedColumn(s'.payments, a) == OwedColumn(s.payments, a) + [0];
      SumAppend(OwedColumn(s.payments, a), 0);
    }
  }

  lemma MoveKeys(b: Bank, m: Movement, id: Uuid)
    requires Foreign(m)
    ensures HasKey(Move(b, m).entries, Key(id)) <==> HasKey(b.entries, Key(id))
  {
    var n := |b.entries|;
    var b' := Move(b, m);
    assert b'.entries == b.entries
      || (|b'.entries| == n + 1 && b'.entries[..n] == b.entries && b'.entries[n].key == m.key);
    if HasKey(b.entries, Key(id)) {
      var i :| 0 <= i < n && b.entries[i].key == Some(Key(id));
      assert b'.entries[i] == b.entries[i];
    }
    if HasKey(b'.entries, Key(id)) {
      var i :| 0 <= i < |b'.entries| && b'.entries[i].key == Some(Key(id));
      assert i < n ==> b.entries[i] == b'.entries[i];
    }
  }

  lemma MoveShifts(b: Bank, m: Movement)
    ensures Moved(b, Move(b, m), m.account, DriftOf(b, m))
  {
    match m
    case PairedCredit(a, x, key) => PairCreditMovesNothing(b, a, x, key);
    case PairedDebit(a, x, key) => PairDebitMovesNothing(b, a, x, key);
    case JournalOnly(a, x, key) => if Post(b, a, x, key).Some? { PostMoves(b, a, x, key); }
  }

  lemma ElsewhereKeeps(s: World, m: Movement)
    requires Inv(s) && Foreign(m)
    ensures Inv(s.(bank := Move(s.bank, m)))
  {
    var b := Move(s.bank, m);
    MoveShifts(s.bank, m);
    forall i | 0 <= i < |s.payments| ensures PaymentOk(b, s.payments[i]) {
      assert PaymentOk(s.bank, s.payments[i]);
      MoveKeys(s.bank, m, s.payments[i].id);
    }
  }

  lemma StepKeeps(s: World, step: Step)
    requires Inv(s)
    ensures Inv(Apply(s, step))
  {
    match step
    case Open(id, account, amount) => OpenKeepsRecords(s, id, account, amount);
    case Reserve(w, p) =>
      if w < |s.workers| && s.workers[w].Idle? && p < |s.payments| {
        ReserveKeepsPayments(s, w, p);
        ReserveKeepsWorkers(s, w, p);
      }
    case Pay(w) =>
      if w < |s.workers| && s.workers[w].Owes? {
        PayKeepsPayments(s, w);
        PayKeepsWorkers(s, w);
      }
    case Mark(w) => if w < |s.workers| && s.workers[w].Marks? { MarkKeepsRecords(s, w); }
    case Crash(w) =>
    case Elsewhere(m) => if Foreign(m) { ElsewhereKeeps(s, m); }
  }

  /** A step widens the gap of an account by exactly what it journals there. */
  lemma StepGap(s: World, step: Step, a: AccountId)
    requires Inv(s) && a in s.bank.balances
    ensures a in Apply(s, step).bank.balances && Gap(Apply(s, step), a) == Gap(s, a) + Journaled(s, step, a)
  {
    match step
    case Open(id, account, amount) => OpenGap(s, id, account, amount, a);
    case Reserve(w, p) => if w < |s.workers| && s.workers[w].Idle? && p < |s.payments| { ReserveGap(s, w, p, a); }
    case Pay(w) => if w < |s.workers| && s.workers[w].Owes? { PayGap(s, w, a); }
    case Mark(w) => if w < |s.workers| && s.workers[w].Marks? { MarkGap(s, w, a); }
    case Crash(w) =>
    case Elsewhere(m) => MoveShifts(s.bank, m);
  }

  // ---------------------------------------------------------------- whole runs

  lemma {:induction false} RunInv(s: World, steps: seq<Step>)
    requires Inv(s)
    ensures Inv(Run(s, steps))
  {
    if steps != [] {
      RunInv(s, steps[..|steps| - 1]);
      StepKeeps(Run(s, steps[..|steps| - 1]), steps[|steps| - 1]);
    }
  }

  /** In every interleaving, with crashes and failed credits anywhere and whatever other features
      do, each payment is credited at most once, and an account's stored balance plus its
      reserved-but-uncredited money differs from its ledger sum by what it did at the start and
      what was journaled on it without a wallet write. */
  lemma {:induction false} BalancePlusOwedIsLedger(s: World, steps: seq<Step>, a: AccountId)
    requires Inv(s) && a in s.bank.balances
    ensures var e := Run(s, steps);
      && Inv(e) && a in e.bank.balances
      && (forall i :: 0 <= i < |e.payments| ==> e.payments[i].credits <= 1)
      && e.bank.balances[a] + Owed(e.payments, a) + Gap(s, a) + JournaledIn(s, steps, a) == LedgerSum(e.bank.entries, a)
  {
    if steps != [] {
      BalancePlusOwedIsLedger(s, steps[..|steps| - 1], a);
      StepKeeps(Run(s, steps[..|steps| - 1]), steps[|steps| - 1]);
      StepGap(Run(s, steps[..|steps| - 1]), steps[|steps| - 1], a);
    }
    forall i | 0 <= i < |Run(s, steps).payments| ensures Run(s, steps).payments[i].credits <= 1 {
      assert PaymentOk(Run(s, steps).bank, Run(s, steps).payments[i]);
    }
  }

  /** Nothing is journaled on `a` alone. */
  ghost predicate PairedOn(steps: seq<Step>, a: AccountId) {
    forall i :: 0 <= i < |steps| && steps[i].Elsewhere? && steps[i].movement.account == a ==>
      !steps[i].movement.JournalOnly?
  }

  lemma {:induction false} NothingJournaled(s: World, steps: seq<Step>, a: AccountId)
    requires PairedOn(steps, a)
    ensures JournaledIn(s, steps, a) == 0
  {
    if steps != [] {
      assert PairedOn(steps[..|steps| - 1], a);
      NothingJournaled(s, steps[..|steps| - 1], a);
    }
  }

  /** A world with nothing begun: no top-up and nobody at work. */
  function Start(bank: Bank, workers: nat): World { World(bank, [], seq(workers, _ => Idle)) }

  lemma StartInv(bank: Bank, workers: nat, a: AccountId)
    requires a in bank.balances
    ensures Inv(Start(bank, workers)) && Gap(Start(bank, workers), a) == -Drift(bank, a)
  {
    SumZero(OwedColumn([], a));
  }

  /** From a start, for an account that had no drift and receives paired writes only, such as
      any buyer's: stored balance plus reserved-but-uncredited money is the ledger sum. */
  lemma {:induction false} BalancePlusOwedFromStart(bank: Bank, workers: nat, steps: seq<Step>, a: AccountId)
    requires a in bank.balances && Drift(bank, a) == 0 && PairedOn(steps, a)
    ensures var e := Run(Start(bank, workers), steps);
      && a in e.bank.balances
      && (forall i :: 0 <= i < |e.payments| ==> e.payments[i].credits <= 1)
      && e.bank.balances[a] + Owed(e.payments, a) == LedgerSum(e.bank.entries, a)
  {
    StartInv(bank, workers, a);
    BalancePlusOwedIsLedger(Start(bank, workers), steps, a);
    NothingJournaled(Start(bank, workers), steps, a);
  }

  lemma OutstandingColumn(payments: seq<TopUp>, a: AccountId)
    requires forall i :: 0 <= i < |payments| ==> payments[i].amount > 0
    ensures Owed(payments, a) == 0
      <==> forall i :: 0 <= i < |payments| && payments[i].account == a ==> !Outstanding(payments[i])
  {
    var column := OwedColumn(payments, a);
    SumNonNegative(column);
    if Sum(column) == 0 {
      forall i | 0 <= i < |payments| && payments[i].account == a ensures !Outstanding(payments[i]) {
        assert column[i] <= Sum(column);
      }
    }
    if forall i :: 0 <= i < |payments| && payments[i].account == a ==> !Outstanding(payments[i]) {
      SumZero(column);
    }
  }

  /** With positive amounts an account's balance equals its ledger sum exactly when none of
      its reservations is still uncredited. */
  lemma BalanceIsLedgerIff(s: World, a: AccountId)
    requires a in s.bank.balances && Gap(s, a) == 0
    requires forall i :: 0 <= i < |s.payments| ==> s.payments[i].amount > 0
    ensures s.bank.balances[a] == LedgerSum(s.bank.entries, a)
      <==> forall i :: 0 <= i < |s.payments| && s.payments[i].account == a ==> !Outstanding(s.payments[i])
  {
    OutstandingColumn(s.payments, a);
  }

  // ---------------------------------------------------------------- lost credits

  /** Payment `p` is reserved, uncredited, and nobody owes it any more. */
  ghost predicate Stranded(s: World, p: nat) {
    p < |s.payments| && Outstanding(s.payments[p]) && Owes(p) !in s.workers
  }

  /** The worker that owes the credit of `p` dies, or its credit fails. */
  predicate Loses(s: World, step: Step, p: nat) {
    match step
    case Crash(w) => w < |s.workers| && s.workers[w] == Owes(p)
    case Pay(w) =>
      && w < |s.workers| && s.workers[w] == Owes(p) && p < |s.payments|
      && Credit(s.bank, s.payments[p].account, s.payments[p].amount).None?
    case _ => false
  }

  ghost predicate WasLost(s: World, steps: seq<Step>, p: nat)
    decreases |steps|
  {
    steps != [] &&
    (WasLost(s, steps[..|steps| - 1], p) || Loses(Run(s, steps[..|steps| - 1]), steps[|steps| - 1], p))
  }

  lemma StrandedStaysUnpaid(s: World, step: Step, p: nat)
    requires WorkersOk(s) && Stranded(s, p) && PaymentOk(s.bank, s.payments[p])
    ensures p < |Apply(s, step).payments| && Outstanding(Apply(s, step).payments[p])
  {
    if step.Pay? && step.worker < |s.workers| {
      assert s.workers[step.worker] != Owes(p);
    }
  }

  lemma StrandedStaysUnowed(s: World, step: Step, p: nat, v: nat)
    requires WorkersOk(s) && Stranded(s, p) && PaymentOk(s.bank, s.payments[p]) && v < |Apply(s, step).workers|
    ensures Apply(s, step).workers[v] != Owes(p)
  {
    assert v < |s.workers| && s.workers[v] != Owes(p);
  }

  lemma StrandedStep(s: World, step: Step, p: nat)
    requires Inv(s) && Stranded(s, p)
    ensures Stranded(Apply(s, step), p)
  {
    StrandedStaysUnpaid(s, step, p);
    forall v | 0 <= v < |Apply(s, step).workers| ensures Apply(s, step).workers[v] != Owes(p) {
      StrandedStaysUnowed(s, step, p, v);
    }
  }

  lemma LosesStrands(s: World, step: Step, p: nat)
    requires Inv(s) && Loses(s, step, p)
    ensures Stranded(Apply(s, step), p)
  {
    var w, s' := step.worker, Apply(s, step);
    forall v | 0 <= v < |s'.workers| ensures s'.workers[v] != Owes(p) {
      assert v != w ==> s.workers[v] != s.workers[w];
    }
  }

  /** A reservation still owed, or a new one, stays in somebody's hands unless it is lost. */
  lemma StaysInHand(s: World, step: Step, p: nat)
    requires Inv(s) && !Stranded(s, p) && !Loses(s, step, p)
    ensures !Stranded(Apply(s, step), p)
  {
    var s' := Apply(s, step);
    if p < |s.payments| && Outstanding(s.payments[p]) && Outstanding(s'.payments[p]) {
      var v :| 0 <= v < |s.workers| && s.workers[v] == Owes(p);
      assert s'.workers[v] == Owes(p);
    } else if p < |s.payments| && Outstanding(s'.payments[p]) {
      assert PaymentOk(s.bank, s.payments[p]) && step.Reserve?;
      assert s'.workers[step.worker] == Owes(p);
    }
  }

  /** A step strands a payment exactly when it was stranded before or its credit is lost. */
  lemma StrandedIff(s: World, step: Step, p: nat)
    requires Inv(s)
    ensures Stranded(Apply(s, step), p) <==> Stranded(s, p) || Loses(s, step, p)
  {
    if Stranded(s, p) {
      StrandedStep(s, step, p);
    } else if Loses(s, step, p) {
      LosesStrands(s, step, p);
    } else {
      StaysInHand(s, step, p);
    }
  }

  lemma {:induction false} RunStrandedIff(s: World, steps: seq<Step>, p: nat)
    requires Inv(s)
    ensures Stranded(Run(s, steps), p) <==> Stranded(s, p) || WasLost(s, steps, p)
  {
    if steps != [] {
      var front, last := steps[..|steps| - 1], steps[|steps| - 1];
      RunStrandedIff(s, front, p);
      RunInv(s, front);
      StrandedIff(Run(s, front), last, p);
    }
  }

  /** A worker that dies, or whose credit fails, between reserving and crediting strands the
      payment: no continuation of the run ever credits it, however often it is retried. */
  lemma StrandedForever(s: World, steps: seq<Step>, p: nat)
    requires Inv(s) && Stranded(s, p)
    ensures Stranded(Run(s, steps), p)
  {
    RunStrandedIff(s, steps, p);
  }

  // ---------------------------------------------------------------- runs that have come to rest

  ghost predicate AtRest(s: World) {
    forall w :: 0 <= w < |s.workers| ==> s.workers[w].Idle?
  }

  /** At rest a reservation is uncredited exactly when its credit was lost, and a completed
      payment was credited exactly once or lost. */
  lemma OutstandingIffLost(bank: Bank, workers: nat, steps: seq<Step>, p: nat)
    requires var e := Run(Start(bank, workers), steps); AtRest(e) && p < |e.payments|
    ensures var t := Run(Start(bank, workers), steps).payments[p];
      && (Outstanding(t) <==> WasLost(Start(bank, workers), steps, p))
      && (t.completed ==> t.credits == if WasLost(Start(bank, workers), steps, p) then 0 else 1)
  {
    var s := Start(bank, workers);
    RunInv(s, steps);
    RunStrandedIff(s, steps, p);
    var e := Run(s, steps);
    assert PaymentOk(e.bank, e.payments[p]);
    assert Owes(p) !in e.workers;
  }

  ghost function LostColumn(s: World, steps: seq<Step>, a: AccountId): seq<int> {
    var payments := Run(s, steps).payments;
    seq(|payments|, p requires 0 <= p < |payments| =>
      if payments[p].account == a && WasLost(s, steps, p) then payments[p].amount else 0)
  }

  /** From a start to rest, for an account without drift that receives paired writes only: its
      stored balance falls short of its ledger sum by exactly the credits of its payments that
      were lost. So with positive amounts the two agree exactly when none was, however many
      other workers died. */
  lemma {:induction false} SettledIffNothingLost(bank: Bank, workers: nat, steps: seq<Step>, a: AccountId)
    requires a in bank.balances && Drift(bank, a) == 0 && PairedOn(steps, a) && AtRest(Run(Start(bank, workers), steps))
    ensures var s, e := Start(bank, workers), Run(Start(bank, workers), steps);
      && a in e.bank.balances
      && e.bank.balances[a] + Sum(LostColumn(s, steps, a)) == LedgerSum(e.bank.entries, a)
      && ((forall i :: 0 <= i < |e.payments| ==> e.payments[i].amount > 0) ==>
           (e.bank.balances[a] == LedgerSum(e.bank.entries, a)
            <==> forall p :: 0 <= p < |e.payments| && e.payments[p].account == a ==> !WasLost(s, steps, p)))
  {
    var s, e := Start(bank, workers), Run(Start(bank, workers), steps);
    BalancePlusOwedFromStart(bank, workers, steps, a);
    forall p | 0 <= p < |e.payments| ensures Outstanding(e.payments[p]) <==> WasLost(s, steps, p) {
      OutstandingIffLost(bank, workers, steps, p);
    }
    assert LostColumn(s, steps, a) == OwedColumn(e.payments, a);
    if forall i :: 0 <= i < |e.payments| ==> e.payments[i].amount > 0 {
      OutstandingColumn(e.payments, a);
    }
  }

  // ---------------------------------------------------------------- completion

  predicate On(pc: Pc, p: nat) { !pc.Idle? && pc.payment == p }

  function OnColumn(workers: seq<Pc>, p: nat): seq<int> {
    seq(|workers|, w requires 0 <= w < |workers| => if On(workers[w], p) then 1 else 0)
  }

  /** How many workers are at work on a payment. */
  function AtWork(s: World, p: nat): int { Sum(OnColumn(s.workers, p)) }

  /** A worker takes payment `p` up, finding it open. */
  ghost predicate TakesUp(s: World, step: Step, p: nat) {
    && step.Reserve? && step.payment == p && step.worker < |s.workers| && s.workers[step.worker].Idle?
    && p < |s.payments| && !s.payments[p].completed
  }

  /** A worker on payment `p` dies, or fails to credit it. */
  ghost predicate Drops(s: World, step: Step, p: nat) {
    match step
    case Crash(w) => w < |s.workers| && On(s.workers[w], p)
    case Pay(_) => Loses(s, step, p)
    case _ => false
  }

  ghost function TakenUp(s: World, steps: seq<Step>, p: nat): nat {
    if steps == [] then 0
    else
      var front := steps[..|steps| - 1];
      TakenUp(s, front, p) + (if TakesUp(Run(s, front), steps[|steps| - 1], p) then 1 else 0)
  }

  ghost function Dropped(s: World, steps: seq<Step>, p: nat): nat {
    if steps == [] then 0
    else
      var front := steps[..|steps| - 1];
      Dropped(s, front, p) + (if Drops(Run(s, front), steps[|steps| - 1], p) then 1 else 0)
  }

  lemma AtWorkUpdate(s: World, w: nat, pc: Pc, p: nat)
    requires w < |s.workers|
    ensures Sum(OnColumn(s.workers[w := pc], p))
      == AtWork(s, p) + (if On(pc, p) then 1 else 0) - (if On(s.workers[w], p) then 1 else 0)
  {
    var x := if On(pc, p) then 1 else 0;
    assert OnColumn(s.workers[w := pc], p) == OnColumn(s.workers, p)[w := x];
    SumUpdate(OnColumn(s.workers, p), w, x);
  }

  lemma TouchedOne(s: World, step: Step, p: nat)
    requires (step.Reserve? || step.Pay? || step.Mark? || step.Crash?) && step.worker < |s.workers|
    ensures var s' := Apply(s, step);
      && |s'.workers| == |s.workers|
      && AtWork(s', p) == AtWork(s, p)
           + (if On(s'.workers[step.worker], p) then 1 else 0) - (if On(s.workers[step.worker], p) then 1 else 0)
  {
    var s', w := Apply(s, step), step.worker;
    AtWorkUpdate(s, w, s'.workers[w], p);
    assert s'.workers == s.workers[w := s'.workers[w]];
  }

  /** A worker leaves a payment by completing it or by dropping it. */
  lemma WorkerLeaves(s: World, step: Step, p: nat)
    requires Inv(s) && p < |s.payments|
    requires (step.Reserve? || step.Pay? || step.Mark? || step.Crash?) && step.worker < |s.workers|
    ensures var s', w := Apply(s, step), step.worker;
      var before, after := if On(s.workers[w], p) then 1 else 0, if On(s'.workers[w], p) then 1 else 0;
      var taken, dropped := if TakesUp(s, step, p) then 1 else 0, if Drops(s, step, p) then 1 else 0;
      && p < |s'.payments| && (s.payments[p].completed ==> s'.payments[p].completed)
      && (step.Mark? || after == before + taken - dropped)
      && (step.Mark? ==> taken == dropped == 0 && after <= before)
      && (step.Mark? && after < before ==> s'.payments[p].completed)
      && (step.Mark? && after == before ==> s'.payments[p].completed == s.payments[p].completed)
      && (!step.Mark? ==> s'.payments[p].completed == s.payments[p].completed)
  {
    var w := step.worker;
    if step.Reserve? && step.payment < |s.payments| { assert PaymentOk(s.bank, s.payments[step.payment]); }
  }

  lemma StepAtWork(s: World, step: Step, p: nat)
    requires Inv(s) && p < |s.payments|
    ensures var s' := Apply(s, step);
      var taken, dropped := if TakesUp(s, step, p) then 1 else 0, if Drops(s, step, p) then 1 else 0;
      && p < |s'.payments| && (s.payments[p].completed ==> s'.payments[p].completed)
      && AtWork(s', p) <= AtWork(s, p) + taken - dropped
      && (!s'.payments[p].completed ==> AtWork(s', p) == AtWork(s, p) + taken - dropped)
      && (!s.payments[p].completed && s'.payments[p].completed ==> AtWork(s', p) < AtWork(s, p) + taken - dropped)
  {
    if (step.Reserve? || step.Pay? || step.Mark? || step.Crash?) && step.worker < |s.workers| {
      TouchedOne(s, step, p);
      WorkerLeaves(s, step, p);
    }
  }

  /** Nobody works on a payment that does not exist. */
  lemma NobodyOnNew(s: World, p: nat)
    requires WorkersOk(s) && p >= |s.payments|
    ensures AtWork(s, p) == 0
  {
    SumZero(OnColumn(s.workers, p));
  }

  lemma OpenLeavesWorkers(s: World, step: Step, p: nat)
    requires p >= |s.payments| && p < |Apply(s, step).payments|
    ensures Apply(s, step).workers == s.workers && !Apply(s, step).payments[p].completed
    ensures !TakesUp(s, step, p) && !Drops(s, step, p)
  {
  }

  lemma {:induction false} WorkersBalance(bank: Bank, workers: nat, steps: seq<Step>, p: nat)
    ensures var s, e := Start(bank, workers), Run(Start(bank, workers), steps);
      var open := TakenUp(s, steps, p) - Dropped(s, steps, p) - AtWork(e, p);
      && Inv(e)
      && (p >= |e.payments| ==> open == 0)
      && (p < |e.payments| ==> open >= 0 && (e.payments[p].completed <==> open > 0))
  {
    var s := Start(bank, workers);
    if steps == [] {
      SumZero(OnColumn(s.workers, p));
    } else {
      var front, last := steps[..|steps| - 1], steps[|steps| - 1];
      WorkersBalance(bank, workers, front, p);
      var m := Run(s, front);
      StepKeeps(m, last);
      if p < |m.payments| {
        StepAtWork(m, last, p);
      } else {
        NobodyOnNew(m, p);
        if p < |Apply(m, last).payments| {
          OpenLeavesWorkers(m, last, p);
        } else {
          NobodyOnNew(Apply(m, last), p);
          NothingDropped(m, last, p);
        }
      }
    }
  }

  lemma NothingDropped(s: World, step: Step, p: nat)
    requires WorkersOk(s) && p >= |s.payments|
    ensures !TakesUp(s, step, p) && !Drops(s, step, p)
  {
  }

  /** A run at rest has completed a payment exactly when some worker that took it up neither died
      on it nor failed to credit it. */
  lemma CompletedIff(bank: Bank, workers: nat, steps: seq<Step>, p: nat)
    requires var e := Run(Start(bank, workers), steps); AtRest(e) && p < |e.payments|
    ensures var s := Start(bank, workers);
      Run(s, steps).payments[p].completed <==> Dropped(s, steps, p) < TakenUp(s, steps, p)
  {
    WorkersBalance(bank, workers, steps, p);
    SumZero(OnColumn(Run(Start(bank, workers), steps).workers, p));
  }

  // ---------------------------------------------------------------- one service's path

  lemma PaidMovesNothing(b: Bank, t: TopUp, posted: Bank, done: Bank)
    requires Post(b, t.account, t.amount, Some(Key(t.id))) == Some(posted)
    requires Credit(posted, t.account, t.amount) == Some(done)
    ensures HasKey(done.entries, Key(t.id)) && Moved(b, done, t.account, 0)
  {
    PostMoves(b, t.account, t.amount, Some(Key(t.id)));
    PostKeys(b, t.account, t.amount, Key(t.id), posted);
    CreditMoves(posted, t.account, t.amount);
    MovedBack(b, posted, done, t.account, -t.amount);
  }

  /** What one service does for a captured payment when nothing fails in between: whoever finds
      the key unused moves ledger and wallet together, anyone else changes neither. */
  method Finish(accounts: Accounts, t: TopUp) returns (credited: bool)
    requires t.account in accounts.balances && accounts.balances[t.account] + t.amount >= 0
    modifies accounts
    ensures credited <==> !HasKey(old(accounts.entries), Key(t.id))
    ensures HasKey(accounts.entries, Key(t.id))
    ensures !credited ==> accounts.Value() == old(accounts.Value())
    ensures credited ==>
      accounts.balances == old(accounts.balances)[t.account := old(accounts.balances)[t.account] + t.amount]
    ensures Moved(old(accounts.Value()), accounts.Value(), t.account, 0)
  {
    ghost var before := accounts.Value();
    var r := accounts.Create(t.account, t.amount, Some(Key(t.id)));
    if !r.Posted? { return false; }
    ghost var posted := accounts.Value();
    var c := accounts.CreditWallet(t.account, t.amount);
    PaidMovesNothing(before, t, posted, accounts.Value());
    credited := true;
  }
}
