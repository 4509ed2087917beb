/** Ledger entries written by several processes at once: each reads the account's sum in one
    statement and inserts its entry, running balance included, in another. */
module LedgerRace {
  import opened Common
  import opened Ledger

  /** A process that has read `sum` over the first `at` entries and not yet inserted. */
  datatype Pc = Idle | HasRead(account: AccountId, amount: int, key: Option<string>, sum: int, at: nat)

  /** `readAt` records, for each entry, how many entries there were when its sum was read. */
  datatype World = World(accounts: set<AccountId>, entries: seq<Entry>, readAt: seq<nat>, workers: seq<Pc>)

  datatype Step =
    | Read(worker: nat, account: AccountId, amount: int, key: Option<string>)
    | Insert(worker: nat)
    | GiveUp(worker: nat)

  predicate Accepts(s: World, pc: Pc)
    requires pc.HasRead?
  {
    pc.account in s.accounts && (pc.key.Some? ==> !HasKey(s.entries, pc.key.value))
  }

  function Apply(s: World, step: Step): World {
    if step.worker >= |s.workers| then s
    else
      var w, pc := step.worker, s.workers[step.worker];
      match step
      case Read(_, account, amount, key) =>
        if !pc.Idle? then s
        else
          s.(workers := s.workers[w := HasRead(account, amount, key, LedgerSum(s.entries, account), |s.entries|)])
      case Insert(_) =>
        if pc.Idle? then s
        else if !Accepts(s, pc) then s.(workers := s.workers[w := Idle])
        else
          s.(entries := s.entries + [Entry(pc.account, pc.amount, pc.key, pc.sum + pc.amount)],
             readAt := s.readAt + [pc.at], workers := s.workers[w := Idle])
      case GiveUp(_) => s.(workers := s.workers[w := Idle])
  }

  function Run(s: World, steps: seq<Step>): World {
    if steps == [] then s else Apply(Run(s, steps[..|steps| - 1]), steps[|steps| - 1])
  }

  function Start(accounts: set<AccountId>, workers: nat): World {
    World(accounts, [], [], seq(workers, _ => Idle))
  }

  // ---------------------------------------------------------------- what every step keeps

  /** Entry `k` carries the sum of the entries it was computed from, plus its own amount. */
  ghost predicate EntryOk(entries: seq<Entry>, readAt: seq<nat>, k: nat)
    requires k < |entries| == |readAt|
  {
    && readAt[k] <= k
    && entries[k].balanceAfter == LedgerSum(entries[..readAt[k]], entries[k].account) + entries[k].amount
  }

  ghost predicate ReaderOk(s: World, w: nat)
    requires w < |s.workers|
  {
    var pc := s.workers[w];
    pc.HasRead? ==> pc.at <= |s.entries| && pc.sum == LedgerSum(s.entries[..pc.at], pc.account)
  }

  ghost predicate Inv(s: World) {
    && |s.readAt| == |s.entries| && KeysUnique(s.entries)
    && (forall k: nat :: k < |s.entries| ==> EntryOk(s.entries, s.readAt, k))
    && (forall w: nat :: w < |s.workers| ==> ReaderOk(s, w))
  }

  lemma StartInv(accounts: set<AccountId>, workers: nat)
    ensures Inv(Start(accounts, workers))
  {
  }

  lemma InsertKeeps(s: World, w: nat)
    requires Inv(s) && w < |s.workers| && s.workers[w].HasRead? && Accepts(s, s.workers[w])
    ensures Inv(Apply(s, Insert(w)))
  {
    var s', pc, n := Apply(s, Insert(w)), s.workers[w], |s.entries|;
    assert ReaderOk(s, w);
    forall k: nat | k < |s'.entries| ensures EntryOk(s'.entries, s'.readAt, k) {
      if k < n {
        assert EntryOk(s.entries, s.readAt, k);
        assert s'.entries[..s.readAt[k]] == s.entries[..s.readAt[k]];
      } else {
        assert s'.entries[..pc.at] == s.entries[..pc.at];
      }
    }
    forall v: nat | v < |s'.workers| ensures ReaderOk(s', v) {
      assert ReaderOk(s, v);
      if v != w && s.workers[v].HasRead? {
        assert s'.entries[..s.workers[v].at] == s.entries[..s.workers[v].at];
      }
    }
  }

  lemma StepKeeps(s: World, step: Step)
    requires Inv(s)
    ensures Inv(Apply(s, step))
  {
    if step.worker < |s.workers| {
      if step.Insert? && s.workers[step.worker].HasRead? && Accepts(s, s.workers[step.worker]) {
        InsertKeeps(s, step.worker);
      } else {
        var s' := Apply(s, step);
        forall v: nat | v < |s'.workers| ensures ReaderOk(s', v) {
          assert ReaderOk(s, v);
          assert s.entries[..|s.entries|] == s.entries;
        }
      }
    }
  }

  lemma {:induction false} RunKeeps(s: World, steps: seq<Step>)
    requires Inv(s)
    ensures Inv(Run(s, steps))
  {
    if steps != [] {
      RunKeeps(s, steps[..|steps| - 1]);
      StepKeeps(Run(s, steps[..|steps| - 1]), steps[|steps| - 1]);
    }
  }

  // ---------------------------------------------------------------- what was asked for

  /** Some process asked for this entry. */
  ghost predicate Asked(steps: seq<Step>, account: AccountId, amount: int, key: Option<string>) {
    exists i :: 0 <= i < |steps| && steps[i].Read?
      && steps[i].account == account && steps[i].amount == amount && steps[i].key == key
  }

  lemma AskedBefore(steps: seq<Step>, last: Step, account: AccountId, amount: int, key: Option<string>)
    requires Asked(steps, account, amount, key)
    ensures Asked(steps + [last], account, amount, key)
  {
    var i :| 0 <= i < |steps| && steps[i].Read?
      && steps[i].account == account && steps[i].amount == amount && steps[i].key == key;
    assert (steps + [last])[i] == steps[i];
  }

  /** Every entry has the account, amount and key somebody asked for. */
  lemma {:induction false} EntriesWereAsked(accounts: set<AccountId>, workers: nat, steps: seq<Step>)
    ensures var s := Run(Start(accounts, workers), steps);
      && (forall e :: e in s.entries ==> e.account in accounts && Asked(steps, e.account, e.amount, e.key))
      && (forall pc :: pc in s.workers && pc.HasRead? ==> Asked(steps, pc.account, pc.amount, pc.key))
      && s.accounts == accounts
  {
    if steps != [] {
      var front, last := steps[..|steps| - 1], steps[|steps| - 1];
      EntriesWereAsked(accounts, workers, front);
      var m, s := Run(Start(accounts, workers), front), Run(Start(accounts, workers), steps);
      assert steps == front + [last];
      forall e | e in m.entries ensures Asked(steps, e.account, e.amount, e.key) {
        AskedBefore(front, last, e.account, e.amount, e.key);
      }
      forall pc | pc in m.workers && pc.HasRead? ensures Asked(steps, pc.account, pc.amount, pc.key) {
        AskedBefore(front, last, pc.account, pc.amount, pc.key);
      }
      if last.Read? {
        assert Asked(steps, last.account, last.amount, last.key) by { assert steps[|front|] == last; }
      }
      if last.worker < |m.workers| { assert m.workers[last.worker] in m.workers; }
    }
  }

  // ---------------------------------------------------------------- running balances

  /** The running balance of entry `k` is its account's sum up to and including it. */
  ghost predicate RightAt(s: World, k: nat)
    requires k < |s.entries|
  {
    s.entries[k].balanceAfter == LedgerSum(s.entries[..k + 1], s.entries[k].account)
  }

  lemma RightIffGapIsZero(s: World, k: nat)
    requires Inv(s) && k < |s.entries|
    ensures s.readAt[k] <= k
    ensures RightAt(s, k) <==> LedgerSum(s.entries[s.readAt[k]..k], s.entries[k].account) == 0
  {
    assert EntryOk(s.entries, s.readAt, k);
    var e := s.entries[k];
    RacingCreate(s.entries[..s.readAt[k]], s.entries[s.readAt[k]..k], e.account, e.amount, e.key);
    assert s.entries[..k + 1] == s.entries[..s.readAt[k]] + s.entries[s.readAt[k]..k] + [e];
  }

  /** In every interleaving of any number of processes no key is used twice, and an entry's
      running balance is right exactly when what reached its account between its read and its
      insertion sums to zero. */
  lemma RacingRuns(accounts: set<AccountId>, workers: nat, steps: seq<Step>)
    ensures var s := Run(Start(accounts, workers), steps);
      && |s.readAt| == |s.entries| && KeysUnique(s.entries)
      && forall k: nat :: k < |s.entries| ==>
           s.readAt[k] <= k && (RightAt(s, k) <==> LedgerSum(s.entries[s.readAt[k]..k], s.entries[k].account) == 0)
  {
    var s := Run(Start(accounts, workers), steps);
    StartInv(accounts, workers);
    RunKeeps(Start(accounts, workers), steps);
    forall k: nat | k < |s.entries|
      ensures s.readAt[k] <= k && (RightAt(s, k) <==> LedgerSum(s.entries[s.readAt[k]..k], s.entries[k].account) == 0)
    {
      RightIffGapIsZero(s, k);
    }
  }
}
