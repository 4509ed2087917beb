/** The append-only ledger, the stored wallet balances beside it, and the paired movements
    that keep the two in step. Amounts are cents; credits positive, debits negative. */
module Ledger {
  import opened Common

  /** Accounts are only ever compared; any numbering of the rows serves as their identifiers. */
  type AccountId = nat

  datatype Entry = Entry(account: AccountId, amount: int, key: Option<string>, balanceAfter: int)

  /** Stored balances and the journal. */
  datatype Bank = Bank(balances: map<AccountId, int>, entries: seq<Entry>)

  function AmountColumn(entries: seq<Entry>, account: AccountId): seq<int> {
    seq(|entries|, i requires 0 <= i < |entries| => if entries[i].account == account then entries[i].amount else 0)
  }

  /** CalculateBalance: the sum of the account's entries. */
  function LedgerSum(entries: seq<Entry>, account: AccountId): int {
    Sum(AmountColumn(entries, account))
  }

  lemma LedgerConcat(a: seq<Entry>, b: seq<Entry>, account: AccountId)
    ensures LedgerSum(a + b, account) == LedgerSum(a, account) + LedgerSum(b, account)
  {
    assert AmountColumn(a + b, account) == AmountColumn(a, account) + AmountColumn(b, account);
    SumConcat(AmountColumn(a, account), AmountColumn(b, account));
  }

  lemma LedgerAppend(entries: seq<Entry>, e: Entry, account: AccountId)
    ensures LedgerSum(entries + [e], account)
         == LedgerSum(entries, account) + (if e.account == account then e.amount else 0)
  {
    var x := if e.account == account then e.amount else 0;
    assert AmountColumn(entries + [e], account) == AmountColumn(entries, account) + [x];
    SumAppend(AmountColumn(entries, account), x);
  }

  predicate HasKey(entries: seq<Entry>, key: string) {
    exists i :: 0 <= i < |entries| && entries[i].key == Some(key)
  }

  /** An insert is refused for an unknown account or a key already present. */
  predicate Postable(b: Bank, account: AccountId, key: Option<string>) {
    account in b.balances && (key.Some? ==> !HasKey(b.entries, key.value))
  }

  /** Create, run serially: the running balance is computed and the entry inserted. */
  function Post(b: Bank, account: AccountId, amount: int, key: Option<string>): Option<Bank> {
    if !Postable(b, account, key) then None
    else Some(b.(entries := b.entries + [Entry(account, amount, key, LedgerSum(b.entries, account) + amount)]))
  }

  /** Credit; the table's own check refuses a negative balance. */
  function Credit(b: Bank, account: AccountId, amount: int): Option<Bank> {
    if account !in b.balances || b.balances[account] + amount < 0 then None
    else Some(b.(balances := b.balances[account := b.balances[account] + amount]))
  }

  /** Debit, guarded by the balance in the same statement. */
  function Debit(b: Bank, account: AccountId, amount: int): Option<Bank> {
    if account !in b.balances || b.balances[account] < amount then None
    else Some(b.(balances := b.balances[account := b.balances[account] - amount]))
  }

  /** Stored balance minus ledger sum. */
  function Drift(b: Bank, account: AccountId): int
    requires account in b.balances
  {
    b.balances[account] - LedgerSum(b.entries, account)
  }

  // ---------------------------------------------------------------- invariants

  ghost predicate KeysUnique(entries: seq<Entry>) {
    forall i, k :: 0 <= i < k < |entries| && entries[i].key.Some? ==> entries[i].key != entries[k].key
  }

  /** Every entry's balance_after is the account's sum up to and including it. */
  ghost predicate RunningBalances(entries: seq<Entry>) {
    forall i {:trigger entries[i].balanceAfter} :: 0 <= i < |entries| ==>
      entries[i].balanceAfter == LedgerSum(entries[..i + 1], entries[i].account)
  }

  ghost predicate NoNegativeBalance(b: Bank) {
    forall a | a in b.balances :: 0 <= b.balances[a]
  }

  ghost predicate NoDrift(b: Bank) {
    forall a | a in b.balances :: Drift(b, a) == 0
  }

  lemma PostKeeps(b: Bank, account: AccountId, amount: int, key: Option<string>)
    requires KeysUnique(b.entries) && RunningBalances(b.entries) && Post(b, account, amount, key).Some?
    ensures var b' := Post(b, account, amount, key).value;
      && KeysUnique(b'.entries) && RunningBalances(b'.entries) && b'.balances == b.balances
      && forall a :: LedgerSum(b'.entries, a) == LedgerSum(b.entries, a) + (if a == account then amount else 0)
  {
    var b' := Post(b, account, amount, key).value;
    var e := b'.entries[|b.entries|];
    forall a ensures LedgerSum(b'.entries, a) == LedgerSum(b.entries, a) + (if a == account then amount else 0) {
      LedgerAppend(b.entries, e, a);
    }
    forall i | 0 <= i < |b'.entries|
      ensures b'.entries[i].balanceAfter == LedgerSum(b'.entries[..i + 1], b'.entries[i].account)
    {
      if i < |b.entries| {
        assert b'.entries[..i + 1] == b.entries[..i + 1];
      } else {
        assert b'.entries[..i + 1] == b'.entries;
      }
    }
  }

  /** An insert uses up its own key and no other. */
  lemma PostKeys(b: Bank, account: AccountId, amount: int, key: string, b': Bank)
    requires Post(b, account, amount, Some(key)) == Some(b')
    ensures forall k :: HasKey(b'.entries, k) <==> HasKey(b.entries, k) || k == key
  {
    var n := |b.entries|;
    assert b'.entries[n].key == Some(key);
    forall k | HasKey(b.entries, k) ensures HasKey(b'.entries, k) {
      var i :| 0 <= i < n && b.entries[i].key == Some(k);
      assert b'.entries[i].key == Some(k);
    }
  }

  // ---------------------------------------------------------------- movements

  /** A serial step. The paired ones run in one transaction, all or nothing. */
  datatype Movement =
    | PairedCredit(account: AccountId, amount: int, key: Option<string>)
    | PairedDebit(account: AccountId, amount: int, key: Option<string>)
    | JournalOnly(account: AccountId, amount: int, key: Option<string>)

  function PairCredit(b: Bank, a: AccountId, x: int, key: Option<string>): Bank {
    match Post(b, a, x, key)
    case None => b
    case Some(p) => match Credit(p, a, x) case None => b case Some(done) => done
  }

  function PairDebit(b: Bank, a: AccountId, x: int, key: Option<string>): Bank {
    match Debit(b, a, x)
    case None => b
    case Some(d) => match Post(d, a, -x, key) case None => b case Some(done) => done
  }

  function Move(b: Bank, m: Movement): Bank {
    match m
    case PairedCredit(a, x, key) => PairCredit(b, a, x, key)
    case PairedDebit(a, x, key) => PairDebit(b, a, x, key)
    case JournalOnly(a, x, key) => match Post(b, a, x, key) case None => b case Some(p) => p
  }

  function MoveAll(b: Bank, ms: seq<Movement>): Bank {
    if ms == [] then b else Move(MoveAll(b, ms[..|ms| - 1]), ms[|ms| - 1])
  }

  /** What a movement adds to the drift of its account: only a journal entry without its
      wallet write does, by exactly its amount. */
  function DriftOf(b: Bank, m: Movement): int {
    if m.JournalOnly? && Postable(b, m.account, m.key) then -m.amount else 0
  }

  ghost predicate BankOk(b: Bank) {
    KeysUnique(b.entries) && RunningBalances(b.entries) && NoNegativeBalance(b)
  }

  /** `b'` has the accounts of `b`, the drift of `account` changed by `d` and no other. */
  ghost predicate Moved(b: Bank, b': Bank, account: AccountId, d: int) {
    && b'.balances.Keys == b.balances.Keys
    && forall a | a in b.balances :: Drift(b', a) == Drift(b, a) + (if a == account then d else 0)
  }

  lemma PostMoves(b: Bank, account: AccountId, amount: int, key: Option<string>)
    requires Post(b, account, amount, key).Some?
    ensures Moved(b, Post(b, account, amount, key).value, account, -amount)
  {
    var b' := Post(b, account, amount, key).value;
    forall a | a in b.balances ensures Drift(b', a) == Drift(b, a) + (if a == account then -amount else 0) {
      LedgerAppend(b.entries, b'.entries[|b.entries|], a);
    }
  }

  lemma CreditMoves(b: Bank, a: AccountId, x: int)
    requires Credit(b, a, x).Some?
    ensures Moved(b, Credit(b, a, x).value, a, x)
  {
  }

  lemma DebitMoves(b: Bank, a: AccountId, x: int)
    requires Debit(b, a, x).Some?
    ensures Moved(b, Debit(b, a, x).value, a, -x)
  {
  }

  lemma MovedBack(a: Bank, b: Bank, c: Bank, account: AccountId, d: int)
    requires Moved(a, b, account, d) && Moved(b, c, account, -d)
    ensures Moved(a, c, account, 0)
  {
  }

  lemma PairCreditMovesNothing(b: Bank, a: AccountId, x: int, key: Option<string>)
    ensures Moved(b, PairCredit(b, a, x, key), a, 0)
  {
    match Post(b, a, x, key)
    case None =>
    case Some(p) =>
      PostMoves(b, a, x, key);
      if Credit(p, a, x).Some? {
        CreditMoves(p, a, x);
        MovedBack(b, p, Credit(p, a, x).value, a, -x);
      }
  }

  lemma PairDebitMovesNothing(b: Bank, a: AccountId, x: int, key: Option<string>)
    ensures Moved(b, PairDebit(b, a, x, key), a, 0)
  {
    match Debit(b, a, x)
    case None =>
    case Some(d) =>
      DebitMoves(b, a, x);
      if Post(d, a, -x, key).Some? {
        PostMoves(d, a, -x, key);
        MovedBack(b, d, Post(d, a, -x, key).value, a, -x);
      }
  }

  lemma WalletKeeps(b: Bank, b': Bank)
    requires BankOk(b) && b'.entries == b.entries && NoNegativeBalance(b')
    ensures BankOk(b')
  {
  }

  lemma PostOk(b: Bank, account: AccountId, amount: int, key: Option<string>, b': Bank)
    requires BankOk(b) && Post(b, account, amount, key) == Some(b')
    ensures BankOk(b')
  {
    PostKeeps(b, account, amount, key);
  }

  lemma PairCreditKeeps(b: Bank, a: AccountId, x: int, key: Option<string>)
    requires BankOk(b)
    ensures BankOk(PairCredit(b, a, x, key))
  {
    match Post(b, a, x, key)
    case None =>
    case Some(p) =>
      PostOk(b, a, x, key, p);
      if Credit(p, a, x).Some? { WalletKeeps(p, Credit(p, a, x).value); }
  }

  lemma PairDebitKeeps(b: Bank, a: AccountId, x: int, key: Option<string>)
    requires BankOk(b)
    ensures BankOk(PairDebit(b, a, x, key))
  {
    match Debit(b, a, x)
    case None =>
    case Some(d) =>
      WalletKeeps(b, d);
      match Post(d, a, -x, key)
      case None =>
      case Some(done) => PostOk(d, a, -x, key, done);
  }

  lemma MoveKeeps(b: Bank, m: Movement)
    requires BankOk(b)
    ensures BankOk(Move(b, m)) && Moved(b, Move(b, m), m.account, DriftOf(b, m))
  {
    match m
    case PairedCredit(a, x, key) => PairCreditKeeps(b, a, x, key); PairCreditMovesNothing(b, a, x, key);
    case PairedDebit(a, x, key) => PairDebitKeeps(b, a, x, key); PairDebitMovesNothing(b, a, x, key);
    case JournalOnly(a, x, key) =>
      if Post(b, a, x, key).Some? {
        PostKeeps(b, a, x, key);
        PostMoves(b, a, x, key);
      }
  }

  /** Serial runs from an empty journal: running balances are right, keyed entries unique, no
      balance goes below zero, and with paired writes only the drift stays zero everywhere. */
  lemma {:induction false} SerialRuns(b: Bank, ms: seq<Movement>)
    requires BankOk(b)
    ensures BankOk(MoveAll(b, ms)) && MoveAll(b, ms).balances.Keys == b.balances.Keys
    ensures NoDrift(b) && (forall i :: 0 <= i < |ms| ==> !ms[i].JournalOnly?) ==> NoDrift(MoveAll(b, ms))
  {
    if ms != [] {
      SerialRuns(b, ms[..|ms| - 1]);
      MoveKeeps(MoveAll(b, ms[..|ms| - 1]), ms[|ms| - 1]);
    }
  }

  // ---------------------------------------------------------------- the read-then-insert race

  /** Create reads the sum and inserts in two statements. If the entries `between` arrive in
      the gap, the new entry's running balance is right exactly when they sum to zero. */
  lemma RacingCreate(read: seq<Entry>, between: seq<Entry>, account: AccountId, amount: int, key: Option<string>)
    ensures var e := Entry(account, amount, key, LedgerSum(read, account) + amount);
      e.balanceAfter == LedgerSum(read + between + [e], account) <==> LedgerSum(between, account) == 0
  {
    LedgerConcat(read, between, account);
    LedgerAppend(read + between, Entry(account, amount, key, LedgerSum(read, account) + amount), account);
  }

  // ---------------------------------------------------------------- the repositories

  datatype PostResult = Posted(entry: Entry) | DuplicateKey | UnknownAccount
  datatype WalletResult = Done | NoRows | InsufficientBalance | CheckViolated

  class Accounts {
    var balances: map<AccountId, int>
    var entries: seq<Entry>

    function Value(): Bank
      reads this
    {
      Bank(balances, entries)
    }

    constructor (balances: map<AccountId, int>)
      ensures Value() == Bank(balances, [])
    {
      this.balances, entries := balances, [];
    }

    method CalculateBalance(account: AccountId) returns (sum: int)
      ensures sum == LedgerSum(entries, account)
    {
      sum := 0;
      assert AmountColumn(entries[..0], account) == [];
      for i := 0 to |entries|
        invariant sum == LedgerSum(entries[..i], account)
      {
        assert entries[..i + 1] == entries[..i] + [entries[i]];
        LedgerAppend(entries[..i], entries[i], account);
        if entries[i].account == account {
          sum := sum + entries[i].amount;
        }
      }
      assert entries[..|entries|] == entries;
    }

    /** The unique key is the lock: a second insert under a key reports DuplicateKey. */
    method Create(account: AccountId, amount: int, key: Option<string>) returns (r: PostResult)
      modifies this
      ensures r.Posted? <==> Post(old(Value()), account, amount, key).Some?
      ensures r.Posted? ==>
        Some(Value()) == Post(old(Value()), account, amount, key) && r.entry == entries[|entries| - 1]
      ensures !r.Posted? ==> Value() == old(Value())
      ensures r.DuplicateKey? <==> account in old(balances) && key.Some? && HasKey(old(entries), key.value)
      ensures r.UnknownAccount? <==> account !in old(balances)
      ensures r.Posted? ==>
        && balances == old(balances)
        && entries == old(entries) + [Entry(account, amount, key, LedgerSum(old(entries), account) + amount)]
    {
      var current := CalculateBalance(account);
      var entry := Entry(account, amount, key, current + amount);
      if account !in balances { return UnknownAccount; }
      if key.Some? && HasKey(entries, key.value) { return DuplicateKey; }
      entries := entries + [entry];
      r := Posted(entry);
    }

    method CreditWallet(account: AccountId, amount: int) returns (r: WalletResult)
      modifies this
      ensures r == Done <==> Credit(old(Value()), account, amount).Some?
      ensures r == Done ==> Some(Value()) == Credit(old(Value()), account, amount)
      ensures r != Done ==> Value() == old(Value())
      ensures r == NoRows <==> account !in old(balances)
      ensures r == Done <==> account in old(balances) && old(balances)[account] + amount >= 0
      ensures r == Done ==>
        && balances == old(balances)[account := old(balances)[account] + amount]
        && entries == old(entries)
    {
      if account !in balances { return NoRows; }
      if balances[account] + amount < 0 { return CheckViolated; }
      balances := balances[account := balances[account] + amount];
      r := Done;
    }

    method DebitWallet(account: AccountId, amount: int) returns (r: WalletResult)
      modifies this
      ensures r == Done <==> Debit(old(Value()), account, amount).Some?
      ensures r == Done ==> Some(Value()) == Debit(old(Value()), account, amount)
      ensures r != Done ==> r == InsufficientBalance && Value() == old(Value())
      ensures r == Done <==> account in old(balances) && amount <= old(balances)[account]
      ensures r == Done ==>
        && balances == old(balances)[account := old(balances)[account] - amount]
        && entries == old(entries)
    {
      if account !in balances || balances[account] < amount { return InsufficientBalance; }
      balances := balances[account := balances[account] - amount];
      r := Done;
    }
  }
}
