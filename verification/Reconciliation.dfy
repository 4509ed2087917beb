/** The reconciliation loop, and the same figures computed a second time as grouped queries. */
module Reconciliation {
  import opened Common
  import opened Ledger

  /** Which of the loop's three reads of an account worked. */
  datatype Outcome = Outcome(scan: bool, stored: bool, ledger: bool)

  /** One account as the loop saw it. */
  datatype Comparison = Comparison(account: AccountId, stored: int, ledger: int)

  datatype RunStatus = AllMatched | Warning | Critical

  datatype RunReport = RunReport(
    checked: nat, matched: nat, discrepancies: seq<Comparison>,
    totalBalance: int, totalLedger: int, status: RunStatus)

  /** What an account's two reads return: its stored balance, and later its ledger sum. */
  datatype Look = Look(stored: int, ledger: int)

  ghost predicate Listed(b: Bank, ids: seq<AccountId>) {
    forall i :: 0 <= i < |ids| ==> ids[i] in b.balances
  }

  ghost predicate Distinct(ids: seq<AccountId>) {
    forall i, k :: 0 <= i < k < |ids| ==> ids[i] != ids[k]
  }

  const CLEAN := Outcome(true, true, true)

  /** The comparisons made: an account that cannot be listed or read is skipped, and a failed
      ledger read counts as a ledger sum of zero. */
  function Compared(ids: seq<AccountId>, looks: seq<Look>, outcomes: seq<Outcome>): seq<Comparison>
    requires |outcomes| == |ids| == |looks|
  {
    if ids == [] then []
    else
      var n := |ids| - 1;
      Compared(ids[..n], looks[..n], outcomes[..n]) + Seen(ids[n], looks[n], outcomes[n])
  }

  function Seen(account: AccountId, look: Look, o: Outcome): seq<Comparison> {
    if o.scan && o.stored then [Comparison(account, look.stored, if o.ledger then look.ledger else 0)] else []
  }

  /** The reads of a bank that stands still. */
  function Still(b: Bank, ids: seq<AccountId>): seq<Look>
    requires Listed(b, ids)
  {
    seq(|ids|, i requires 0 <= i < |ids| => Look(b.balances[ids[i]], LedgerSum(b.entries, ids[i])))
  }

  function Differing(cs: seq<Comparison>): seq<Comparison> {
    if cs == [] then []
    else
      var c := cs[|cs| - 1];
      Differing(cs[..|cs| - 1]) + (if c.stored != c.ledger then [c] else [])
  }

  function StoredTotal(cs: seq<Comparison>): int {
    if cs == [] then 0 else StoredTotal(cs[..|cs| - 1]) + cs[|cs| - 1].stored
  }

  function LedgerTotal(cs: seq<Comparison>): int {
    if cs == [] then 0 else LedgerTotal(cs[..|cs| - 1]) + cs[|cs| - 1].ledger
  }

  function DifferenceTotal(cs: seq<Comparison>): int {
    if cs == [] then 0
    else DifferenceTotal(cs[..|cs| - 1]) + (cs[|cs| - 1].stored - cs[|cs| - 1].ledger)
  }

  function StatusOf(discrepancies: nat, checked: nat): RunStatus {
    if discrepancies == 0 then AllMatched
    else if discrepancies <= checked / 100 then Warning
    else Critical
  }

  lemma OneMore(cs: seq<Comparison>, c: Comparison)
    ensures Differing(cs + [c]) == Differing(cs) + (if c.stored != c.ledger then [c] else [])
    ensures StoredTotal(cs + [c]) == StoredTotal(cs) + c.stored
    ensures LedgerTotal(cs + [c]) == LedgerTotal(cs) + c.ledger
    ensures DifferenceTotal(cs + [c]) == DifferenceTotal(cs) + c.stored - c.ledger
  {
    assert (cs + [c])[..|cs|] == cs;
  }

  lemma NextComparison(ids: seq<AccountId>, looks: seq<Look>, outcomes: seq<Outcome>, i: nat)
    requires |outcomes| == |ids| == |looks| && i < |ids|
    ensures Compared(ids[..i + 1], looks[..i + 1], outcomes[..i + 1])
         == Compared(ids[..i], looks[..i], outcomes[..i]) + Seen(ids[i], looks[i], outcomes[i])
  {
    assert ids[..i + 1][..i] == ids[..i] && looks[..i + 1][..i] == looks[..i];
    assert outcomes[..i + 1][..i] == outcomes[..i];
  }

  /** The loop's figures for the comparisons made so far. */
  predicate Tallied(cs: seq<Comparison>, run: RunReport) {
    && run.checked == |cs| && run.checked == run.matched + |run.discrepancies|
    && run.discrepancies == Differing(cs)
    && run.totalBalance == StoredTotal(cs) && run.totalLedger == LedgerTotal(cs)
  }

  /** One comparison's part in the figures. */
  method Tally(run: RunReport, c: Comparison, ghost cs: seq<Comparison>) returns (after: RunReport)
    requires Tallied(cs, run)
    ensures Tallied(cs + [c], after)
  {
    OneMore(cs, c);
    after := run.(checked := run.checked + 1, totalBalance := run.totalBalance + c.stored,
                  totalLedger := run.totalLedger + c.ledger);
    if c.stored != c.ledger {
      after := after.(discrepancies := after.discrepancies + [c]);
    } else {
      after := after.(matched := after.matched + 1);
    }
  }

  /** The loop over all accounts. */
  method RunReconciliation(ids: seq<AccountId>, looks: seq<Look>, outcomes: seq<Outcome>) returns (run: RunReport)
    requires |outcomes| == |ids| == |looks|
    ensures var cs := Compared(ids, looks, outcomes);
      && run.checked == |cs| && run.checked == run.matched + |run.discrepancies|
      && run.discrepancies == Differing(cs)
      && run.totalBalance == StoredTotal(cs) && run.totalLedger == LedgerTotal(cs)
    ensures run.status == StatusOf(|run.discrepancies|, run.checked)
  {
    run := RunReport(0, 0, [], 0, 0, AllMatched);
    ghost var cs: seq<Comparison> := [];
    for i := 0 to |ids|
      invariant cs == Compared(ids[..i], looks[..i], outcomes[..i]) && Tallied(cs, run)
    {
      NextComparison(ids, looks, outcomes, i);
      if !outcomes[i].scan { continue; }
      if !outcomes[i].stored { continue; }
      var ledger := if outcomes[i].ledger then looks[i].ledger else 0;
      var c := Comparison(ids[i], looks[i].stored, ledger);
      run := Tally(run, c, cs);
      cs := cs + [c];
    }
    assert ids[..|ids|] == ids && looks[..|looks|] == looks && outcomes[..|ids|] == outcomes;
    if |run.discrepancies| == 0 {
      run := run.(status := AllMatched);
    } else if |run.discrepancies| <= run.checked / 100 {
      run := run.(status := Warning);
    } else {
      run := run.(status := Critical);
    }
  }

  /** In every run, even with failed reads, the two totals differ by exactly the listed
      differences. */
  lemma {:induction false} TotalsDifferByTheListed(cs: seq<Comparison>)
    ensures StoredTotal(cs) - LedgerTotal(cs) == DifferenceTotal(Differing(cs))
  {
    if cs != [] {
      var front, c := cs[..|cs| - 1], cs[|cs| - 1];
      TotalsDifferByTheListed(front);
      if c.stored != c.ledger {
        OneMore(Differing(front), c);
        assert Differing(cs) == Differing(front) + [c];
      } else {
        assert Differing(cs) == Differing(front);
      }
    }
  }

  /** Accounts whose stored balance and ledger sum disagree, in listing order. */
  ghost function Drifting(b: Bank, ids: seq<AccountId>): seq<AccountId>
    requires Listed(b, ids)
  {
    if ids == [] then []
    else
      Drifting(b, ids[..|ids| - 1]) + (if Drift(b, ids[|ids| - 1]) != 0 then [ids[|ids| - 1]] else [])
  }

  lemma {:induction false} DriftingSound(b: Bank, ids: seq<AccountId>)
    requires Listed(b, ids)
    ensures forall a :: a in Drifting(b, ids) <==> a in ids && a in b.balances && Drift(b, a) != 0
  {
    if ids != [] {
      DriftingSound(b, ids[..|ids| - 1]);
      assert ids == ids[..|ids| - 1] + [ids[|ids| - 1]];
    }
  }

  /** Without read errors and with a bank that stands still every account is compared and the
      discrepancies are exactly the drifting accounts, each with its drift. */
  lemma {:induction false} ErrorFreeListsDrift(b: Bank, ids: seq<AccountId>, outcomes: seq<Outcome>)
    requires |outcomes| == |ids| && Listed(b, ids) && forall i :: 0 <= i < |ids| ==> outcomes[i] == CLEAN
    ensures var cs := Compared(ids, Still(b, ids), outcomes);
      var ds := Differing(cs);
      && |cs| == |ids| && |ds| == |Drifting(b, ids)|
      && forall k :: 0 <= k < |ds| ==>
           && ds[k].account == Drifting(b, ids)[k] && ds[k].account in b.balances
           && ds[k].stored - ds[k].ledger == Drift(b, ds[k].account)
  {
    if ids != [] {
      var n := |ids| - 1;
      ErrorFreeListsDrift(b, ids[..n], outcomes[..n]);
      assert Still(b, ids)[..n] == Still(b, ids[..n]);
      OneMore(Compared(ids[..n], Still(b, ids[..n]), outcomes[..n]), Seen(ids[n], Still(b, ids)[n], outcomes[n])[0]);
    }
  }

  /** A run is a success exactly when no account drifts, on the error-free path. */
  lemma SuccessMeansNoDrift(b: Bank, ids: seq<AccountId>, outcomes: seq<Outcome>)
    requires |outcomes| == |ids| && Listed(b, ids) && forall i :: 0 <= i < |ids| ==> outcomes[i] == CLEAN
    ensures var cs := Compared(ids, Still(b, ids), outcomes);
      StatusOf(|Differing(cs)|, |cs|) == AllMatched
      <==> forall a :: a in ids && a in b.balances ==> Drift(b, a) == 0
  {
    ErrorFreeListsDrift(b, ids, outcomes);
    DriftingSound(b, ids);
    if Drifting(b, ids) != [] {
      assert Drifting(b, ids)[0] in Drifting(b, ids);
    }
  }

  /** How bad the run calls it: critical exactly when some account drifts and the drifting ones
      are more than one in a hundred of those checked, rounded down, a warning when there are
      fewer. Below a hundred accounts a single one is critical. */
  lemma CriticalIff(b: Bank, ids: seq<AccountId>, outcomes: seq<Outcome>)
    requires |outcomes| == |ids| && Listed(b, ids) && forall i :: 0 <= i < |ids| ==> outcomes[i] == CLEAN
    ensures var cs, d := Compared(ids, Still(b, ids), outcomes), |Drifting(b, ids)|;
      var status := StatusOf(|Differing(cs)|, |cs|);
      && (status == Critical <==> d > 0 && d > |ids| / 100)
      && (status == Warning <==> 0 < d <= |ids| / 100)
      && (|ids| < 100 && d > 0 ==> status == Critical)
  {
    ErrorFreeListsDrift(b, ids, outcomes);
  }

  /** A failed ledger read is not skipped, as the other two are: the account is listed exactly when
      its balance is not zero, whatever its drift, so a sound account with money in it raises a
      false alarm. */
  lemma FailedLedgerRead(account: AccountId, look: Look)
    ensures var ds := Differing(Seen(account, look, Outcome(true, true, false)));
      && (ds != [] <==> look.stored != 0)
      && (look.stored == look.ledger != 0 ==> ds == [Comparison(account, look.stored, 0)])
    ensures forall o: Outcome :: !o.scan || !o.stored ==> Seen(account, look, o) == []
  {
    var cs := Seen(account, look, Outcome(true, true, false));
    assert cs[..0] == [] && Differing(cs[..0]) == [];
  }

  // ---------------------------------------------------------------- a bank that moves

  /** The balance of account `i` was read in bank `before[i]`, its ledger sum in a later bank
      `after[i]`. */
  ghost predicate Snapshots(ids: seq<AccountId>, looks: seq<Look>, before: seq<Bank>, after: seq<Bank>) {
    && |ids| == |looks| == |before| == |after|
    && forall i :: 0 <= i < |ids| ==>
         && ids[i] in before[i].balances && before[i].entries <= after[i].entries
         && looks[i] == Look(before[i].balances[ids[i]], LedgerSum(after[i].entries, ids[i]))
  }

  lemma {:induction false} CleanCompared(ids: seq<AccountId>, looks: seq<Look>, outcomes: seq<Outcome>)
    requires |outcomes| == |ids| == |looks| && forall i :: 0 <= i < |ids| ==> outcomes[i] == CLEAN
    ensures |Compared(ids, looks, outcomes)| == |ids|
    ensures forall i :: 0 <= i < |ids| ==>
      Compared(ids, looks, outcomes)[i] == Comparison(ids[i], looks[i].stored, looks[i].ledger)
  {
    if ids != [] {
      CleanCompared(ids[..|ids| - 1], looks[..|ids| - 1], outcomes[..|ids| - 1]);
    }
  }

  lemma {:induction false} NoneDiffersIff(cs: seq<Comparison>)
    ensures Differing(cs) == [] <==> forall c :: c in cs ==> c.stored == c.ledger
  {
    if cs != [] {
      NoneDiffersIff(cs[..|cs| - 1]);
      assert cs == cs[..|cs| - 1] + [cs[|cs| - 1]];
    }
  }

  lemma {:induction false} CleanRunSucceedsIff(ids: seq<AccountId>, looks: seq<Look>, outcomes: seq<Outcome>)
    requires |outcomes| == |ids| == |looks| && forall i :: 0 <= i < |ids| ==> outcomes[i] == CLEAN
    ensures var cs := Compared(ids, looks, outcomes);
      StatusOf(|Differing(cs)|, |cs|) == AllMatched
      <==> forall i: nat :: i < |ids| ==> looks[i].stored == looks[i].ledger
  {
    var cs := Compared(ids, looks, outcomes);
    CleanCompared(ids, looks, outcomes);
    NoneDiffersIff(cs);
    forall i: nat | i < |ids| ensures cs[i] in cs {
    }
  }

  /** The drift of account `i` when its balance was read is what reached its ledger before the
      sum was read. */
  ghost predicate Squares(ids: seq<AccountId>, before: seq<Bank>, after: seq<Bank>, i: nat)
    requires i < |ids| && |ids| == |before| == |after|
    requires ids[i] in before[i].balances && before[i].entries <= after[i].entries
  {
    Drift(before[i], ids[i]) == LedgerSum(after[i].entries[|before[i].entries|..], ids[i])
  }

  lemma SquaresIff(ids: seq<AccountId>, looks: seq<Look>, before: seq<Bank>, after: seq<Bank>, i: nat)
    requires Snapshots(ids, looks, before, after) && i < |ids|
    ensures looks[i].stored == looks[i].ledger <==> Squares(ids, before, after, i)
  {
    var n := |before[i].entries|;
    LedgerConcat(before[i].entries, after[i].entries[n..], ids[i]);
    assert after[i].entries == before[i].entries + after[i].entries[n..];
  }

  /** The source reads each balance and each ledger sum in statements of their own. While money
      moves, an error-free run succeeds exactly when every account's drift at the time its
      balance was read is what reached its ledger before the sum was read. So among accounts
      that never drift it succeeds exactly when nothing, on balance, was written in between. */
  lemma MovingRunSucceedsIff(ids: seq<AccountId>, looks: seq<Look>, outcomes: seq<Outcome>,
                             before: seq<Bank>, after: seq<Bank>)
    requires |outcomes| == |ids| && Snapshots(ids, looks, before, after)
    requires forall i :: 0 <= i < |ids| ==> outcomes[i] == CLEAN
    ensures var cs := Compared(ids, looks, outcomes);
      StatusOf(|Differing(cs)|, |cs|) == AllMatched
      <==> forall i: nat :: i < |ids| ==> Squares(ids, before, after, i)
  {
    CleanRunSucceedsIff(ids, looks, outcomes);
    forall i: nat | i < |ids| ensures looks[i].stored == looks[i].ledger <==> Squares(ids, before, after, i) {
      SquaresIff(ids, looks, before, after, i);
    }
  }

  // ---------------------------------------------------------------- the grouped query

  /** One row of accounts LEFT JOIN transaction_ledger; None is the NULL of an unmatched account. */
  datatype JoinRow = JoinRow(account: AccountId, amount: Option<int>)

  function Matches(account: AccountId, entries: seq<Entry>): seq<JoinRow> {
    if entries == [] then []
    else
      Matches(account, entries[..|entries| - 1])
      + (if entries[|entries| - 1].account != account then []
         else [JoinRow(account, Some(entries[|entries| - 1].amount))])
  }

  function LeftJoin(ids: seq<AccountId>, entries: seq<Entry>): seq<JoinRow> {
    if ids == [] then []
    else
      var a := ids[|ids| - 1];
      LeftJoin(ids[..|ids| - 1], entries)
      + (if Matches(a, entries) == [] then [JoinRow(a, None)] else Matches(a, entries))
  }

  function ValueColumn(rows: seq<JoinRow>, account: AccountId): seq<int> {
    seq(|rows|, i requires 0 <= i < |rows| =>
      if rows[i].account == account && rows[i].amount.Some? then rows[i].amount.value else 0)
  }

  /** COALESCE(SUM(l.amount_cents), 0) of the account's group; SUM skips NULLs. */
  function GroupSum(rows: seq<JoinRow>, account: AccountId): int {
    Sum(ValueColumn(rows, account))
  }

  lemma GroupConcat(r: seq<JoinRow>, s: seq<JoinRow>, account: AccountId)
    ensures GroupSum(r + s, account) == GroupSum(r, account) + GroupSum(s, account)
  {
    assert ValueColumn(r + s, account) == ValueColumn(r, account) + ValueColumn(s, account);
    SumConcat(ValueColumn(r, account), ValueColumn(s, account));
  }

  lemma SingleGroup(row: JoinRow, account: AccountId)
    ensures GroupSum([row], account) == if row.account == account && row.amount.Some? then row.amount.value else 0
  {
    var x := if row.account == account && row.amount.Some? then row.amount.value else 0;
    assert ValueColumn([row], account) == [] + [x];
    SumAppend([], x);
  }

  lemma {:induction false} MatchesSum(account: AccountId, entries: seq<Entry>, group: AccountId)
    ensures GroupSum(Matches(account, entries), group) == if group == account then LedgerSum(entries, account) else 0
  {
    if entries == [] {
      assert ValueColumn([], group) == [] && AmountColumn([], account) == [];
    } else {
      var front, last := entries[..|entries| - 1], entries[|entries| - 1];
      MatchesSum(account, front, group);
      assert entries == front + [last];
      LedgerAppend(front, last, account);
      if last.account == account {
        var row := JoinRow(account, Some(last.amount));
        assert Matches(account, entries) == Matches(account, front) + [row];
        GroupConcat(Matches(account, front), [row], group);
        SingleGroup(row, group);
      } else {
        assert Matches(account, entries) == Matches(account, front);
      }
    }
  }

  /** A listed account's group sums to its ledger sum, matched or not. */
  lemma {:induction false} GroupIsLedger(ids: seq<AccountId>, entries: seq<Entry>, group: AccountId)
    requires Distinct(ids)
    ensures GroupSum(LeftJoin(ids, entries), group) == if group in ids then LedgerSum(entries, group) else 0
  {
    if ids == [] {
      assert ValueColumn([], group) == [];
    } else {
      var front, a := ids[..|ids| - 1], ids[|ids| - 1];
      GroupIsLedger(front, entries, group);
      assert ids == front + [a] && a !in front;
      var rows := if Matches(a, entries) == [] then [JoinRow(a, None)] else Matches(a, entries);
      GroupConcat(LeftJoin(front, entries), rows, group);
      MatchesSum(a, entries, group);
      SingleGroup(JoinRow(a, None), group);
      if Matches(a, entries) == [] { assert ValueColumn([], group) == []; }
    }
  }

  /** SELECT COUNT(*) over the groups whose balance differs from their sum. */
  ghost function DriftCount(b: Bank, all: seq<JoinRow>, ids: seq<AccountId>): nat
    requires Listed(b, ids)
  {
    if ids == [] then 0
    else
      DriftCount(b, all, ids[..|ids| - 1])
        + (if b.balances[ids[|ids| - 1]] != GroupSum(all, ids[|ids| - 1]) then 1 else 0)
  }

  lemma {:induction false} DriftCountAgrees(b: Bank, ids: seq<AccountId>, part: seq<AccountId>)
    requires Distinct(ids)
    requires Listed(b, part) && forall i :: 0 <= i < |part| ==> part[i] in ids
    ensures DriftCount(b, LeftJoin(ids, b.entries), part) == |Drifting(b, part)|
  {
    if part != [] {
      DriftCountAgrees(b, ids, part[..|part| - 1]);
      GroupIsLedger(ids, b.entries, part[|part| - 1]);
    }
  }

  /** The dashboard's grouped drift count is the number of discrepancies an error-free run
      lists over the same distinct accounts; so it is zero exactly when that run succeeds. */
  lemma DashboardAgreesWithRun(b: Bank, ids: seq<AccountId>, outcomes: seq<Outcome>)
    requires Distinct(ids) && Listed(b, ids)
    requires |outcomes| == |ids| && forall i :: 0 <= i < |ids| ==> outcomes[i] == CLEAN
    ensures var cs := Compared(ids, Still(b, ids), outcomes);
      && DriftCount(b, LeftJoin(ids, b.entries), ids) == |Differing(cs)|
      && (DriftCount(b, LeftJoin(ids, b.entries), ids) == 0 <==> StatusOf(|Differing(cs)|, |cs|) == AllMatched)
  {
    forall i | 0 <= i < |ids| ensures ids[i] in ids {
    }
    DriftCountAgrees(b, ids, ids);
    ErrorFreeListsDrift(b, ids, outcomes);
  }
}
