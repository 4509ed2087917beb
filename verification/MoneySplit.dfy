/** The purchase split every booking and pass performs, and its reversal: who ends up with
    what in the ledger and in the stored balances. Both run in one transaction each. */
module MoneySplit {
  import opened Common
  import opened Ledger

  /** The accounts a purchase moves money between. */
  datatype Parties = Parties(user: AccountId, platform: AccountId, host: AccountId)

  ghost predicate Separate(p: Parties) {
    p.user != p.platform && p.user != p.host && p.platform != p.host
  }

  // ---------------------------------------------------------------- postings

  /** The sum of every entry, whatever its account. */
  function Total(entries: seq<Entry>): int {
    if entries == [] then 0 else Total(entries[..|entries| - 1]) + entries[|entries| - 1].amount
  }

  /** One more entry of a transaction that may already have failed. */
  function Then(b: Option<Bank>, account: AccountId, amount: int, key: Option<string>): Option<Bank> {
    match b case None => None case Some(c) => Post(c, account, amount, key)
  }

  /** `b'` has more entries than `b` and the same wallets; the ledger as a whole has grown by
      `total` and the ledger sum of `a` by `d`. */
  ghost predicate Grew(b: Bank, b': Bank, total: int, a: AccountId, d: int) {
    && b'.balances == b.balances && b.entries <= b'.entries
    && Total(b'.entries) == Total(b.entries) + total
    && LedgerSum(b'.entries, a) == LedgerSum(b.entries, a) + d
  }

  lemma PostGrows(b: Bank, b': Bank, account: AccountId, amount: int, key: Option<string>, a: AccountId)
    requires Post(b, account, amount, key) == Some(b')
    ensures Grew(b, b', amount, a, if a == account then amount else 0)
    ensures forall k :: HasKey(b'.entries, k) <==> HasKey(b.entries, k) || key == Some(k)
  {
    var n := |b.entries|;
    assert b'.entries[..n] == b.entries && b'.entries[n].key == key;
    LedgerAppend(b.entries, b'.entries[n], a);
    forall k | HasKey(b.entries, k) ensures HasKey(b'.entries, k) {
      var i :| 0 <= i < n && b.entries[i].key == Some(k);
      assert b'.entries[i].key == Some(k);
    }
  }

  // ---------------------------------------------------------------- the purchase

  /** creditSplit's four entries; only the first carries the purchase's key. */
  function CreditSplit(b: Bank, p: Parties, total: int, hostShare: int, key: string): Option<Bank> {
    var paid := Then(Some(b), p.user, -total, Some(key));
    var received := Then(paid, p.platform, total, None);
    var disbursed := Then(received, p.platform, -hostShare, None);
    Then(disbursed, p.host, hostShare, None)
  }

  /** The buyer's wallet is debited first, then the split is written. */
  function Purchase(b: Bank, p: Parties, total: int, hostShare: int, key: string): Option<Bank> {
    match Debit(b, p.user, total)
    case None => None
    case Some(d) => CreditSplit(d, p, total, hostShare, key)
  }

  /** What a purchase is meant to add to an account's ledger sum. */
  function PurchaseDelta(p: Parties, total: int, hostShare: int, a: AccountId): int {
    (if a == p.user then -total else 0) + (if a == p.platform then total - hostShare else 0)
    + (if a == p.host then hostShare else 0)
  }

  lemma SplitGrows(b: Bank, p: Parties, total: int, hostShare: int, key: string, b': Bank, a: AccountId)
    requires CreditSplit(b, p, total, hostShare, key) == Some(b')
    ensures Grew(b, b', 0, a, PurchaseDelta(p, total, hostShare, a))
  {
    var paid := Post(b, p.user, -total, Some(key)).value;
    var received := Post(paid, p.platform, total, None).value;
    var disbursed := Post(received, p.platform, -hostShare, None).value;
    PostGrows(b, paid, p.user, -total, Some(key), a);
    PostGrows(paid, received, p.platform, total, None, a);
    PostGrows(received, disbursed, p.platform, -hostShare, None, a);
    PostGrows(disbursed, b', p.host, hostShare, None, a);
  }

  /** A purchase moves `total` out of the buyer, the host's share to the host and the rest to
      the platform; the ledger as a whole is unchanged, and of the stored balances only the
      buyer's moves. */
  lemma PurchaseMoves(b: Bank, p: Parties, total: int, hostShare: int, key: string, b': Bank, a: AccountId)
    requires Purchase(b, p, total, hostShare, key) == Some(b')
    ensures b.entries <= b'.entries && Total(b'.entries) == Total(b.entries)
    ensures p.user in b.balances && b'.balances == b.balances[p.user := b.balances[p.user] - total]
    ensures LedgerSum(b'.entries, a) == LedgerSum(b.entries, a) + PurchaseDelta(p, total, hostShare, a)
  {
    match Debit(b, p.user, total)
    case Some(d) => SplitGrows(d, p, total, hostShare, key, b', a);
  }

  /** In figures: the buyer pays the price, the host gets its share, the platform keeps the rest
      and nobody else's ledger sum moves. */
  lemma PurchaseFigures(b: Bank, p: Parties, total: int, hostShare: int, key: string, b': Bank)
    requires Separate(p) && Purchase(b, p, total, hostShare, key) == Some(b')
    ensures LedgerSum(b'.entries, p.user) == LedgerSum(b.entries, p.user) - total
    ensures LedgerSum(b'.entries, p.host) == LedgerSum(b.entries, p.host) + hostShare
    ensures LedgerSum(b'.entries, p.platform) == LedgerSum(b.entries, p.platform) + total - hostShare
    ensures forall a :: a !in {p.user, p.host, p.platform} ==> LedgerSum(b'.entries, a) == LedgerSum(b.entries, a)
  {
    forall a ensures LedgerSum(b'.entries, a) == LedgerSum(b.entries, a) + PurchaseDelta(p, total, hostShare, a) {
      PurchaseMoves(b, p, total, hostShare, key, b', a);
    }
  }

  /** It goes through exactly when the wallet covers it, the accounts exist and the key is new. */
  lemma PurchaseSucceedsIff(b: Bank, p: Parties, total: int, hostShare: int, key: string)
    ensures Purchase(b, p, total, hostShare, key).Some? <==>
      && p.user in b.balances && p.platform in b.balances && p.host in b.balances
      && total <= b.balances[p.user] && !HasKey(b.entries, key)
  {
  }

  lemma PurchaseUsesKey(b: Bank, p: Parties, total: int, hostShare: int, key: string, b': Bank)
    requires Purchase(b, p, total, hostShare, key) == Some(b')
    ensures |b.entries| < |b'.entries| && b'.entries[|b.entries|].key == Some(key)
  {
    match Debit(b, p.user, total)
    case Some(d) =>
      var paid := Post(d, p.user, -total, Some(key)).value;
      assert paid.entries[|b.entries|].key == Some(key);
  }

  /** A key buys once: in every later state a purchase under it is refused, whoever makes it. */
  lemma PurchasedOnce(b: Bank, p: Parties, total: int, hostShare: int, key: string, b': Bank,
                      later: Bank, other: Parties, price: int, share: int)
    requires Purchase(b, p, total, hostShare, key) == Some(b') && b'.entries <= later.entries
    ensures Purchase(later, other, price, share, key) == None
  {
    PurchaseUsesKey(b, p, total, hostShare, key, b');
    assert later.entries[|b.entries|].key == Some(key);
    PurchaseSucceedsIff(later, other, price, share, key);
  }

  // ---------------------------------------------------------------- the reversal

  /** What a cancellation gives back. The host's and the platform's accounts are looked up and
      may be missing, in which case their part is skipped. `rowFree` says that the payments table
      holds no row under the key of the refund's own row. */
  datatype Undo = Undo(user: AccountId, host: Option<AccountId>, platform: Option<AccountId>,
                       amount: int, net: int, fee: int, reference: string, rowFree: bool)

  datatype UndoResult = Reversed(bank: Bank) | AlreadyRefunded | Rejected

  function RefundKey(reference: string): string { "refund_credit_" + reference }
  function HostKey(reference: string): string { "cancellation_debit_" + reference }
  function PlatformKey(reference: string): string { "cancellation_platform_" + reference }

  /** A part of the reversal is written only when its amount is positive and its account known. */
  function TakeBack(b: Option<Bank>, account: Option<AccountId>, amount: int, key: string): Option<Bank> {
    if amount > 0 && account.Some? then Then(b, account.value, -amount, Some(key)) else b
  }

  function Refund(b: Bank, user: AccountId, amount: int, key: string): Option<Bank> {
    if amount <= 0 then Some(b)
    else match Post(b, user, amount, Some(key)) case None => None case Some(c) => Credit(c, user, amount)
  }

  /** reverseSplit with its three keys. */
  function ReverseWith(b: Bank, u: Undo, refundKey: string, hostKey: string, platformKey: string): UndoResult {
    if u.amount > 0 && HasKey(b.entries, refundKey) then AlreadyRefunded
    else
      var refunded := Refund(b, u.user, u.amount, refundKey);
      match TakeBack(TakeBack(refunded, u.host, u.net, hostKey), u.platform, u.fee, platformKey)
      case None => Rejected
      case Some(done) => if u.amount > 0 && !u.rowFree then Rejected else Reversed(done)
  }

  function Reverse(b: Bank, u: Undo): UndoResult {
    ReverseWith(b, u, RefundKey(u.reference), HostKey(u.reference), PlatformKey(u.reference))
  }

  function Taken(account: Option<AccountId>, amount: int): int {
    if amount > 0 && account.Some? then amount else 0
  }

  predicate Is(account: Option<AccountId>, a: AccountId) { account.Some? && account.value == a }

  function Given(u: Undo): int { if u.amount > 0 then u.amount else 0 }

  /** What a reversal is meant to add to an account's ledger sum. */
  function UndoDelta(u: Undo, a: AccountId): int {
    (if a == u.user then Given(u) else 0)
    - (if Is(u.host, a) then Taken(u.host, u.net) else 0)
    - (if Is(u.platform, a) then Taken(u.platform, u.fee) else 0)
  }

  lemma TakeBackGrows(b: Bank, account: Option<AccountId>, amount: int, key: string, b': Bank, a: AccountId)
    requires TakeBack(Some(b), account, amount, key) == Some(b')
    ensures Grew(b, b', -Taken(account, amount), a, if Is(account, a) then -Taken(account, amount) else 0)
    ensures forall k :: HasKey(b'.entries, k) <==> HasKey(b.entries, k) || (Taken(account, amount) > 0 && k == key)
  {
    if amount > 0 && account.Some? {
      PostGrows(b, b', account.value, -amount, Some(key), a);
    }
  }

  /** Refunding pays wallet and ledger alike. */
  lemma RefundPays(b: Bank, user: AccountId, amount: int, key: string, b': Bank, a: AccountId)
    requires Refund(b, user, amount, key) == Some(b')
    ensures amount > 0 ==> user in b.balances && b'.balances == b.balances[user := b.balances[user] + amount]
    ensures amount <= 0 ==> b'.balances == b.balances
    ensures var x := if amount > 0 then amount else 0;
      Grew(b, b'.(balances := b.balances), x, a, if a == user then x else 0)
    ensures forall k :: HasKey(b'.entries, k) <==> HasKey(b.entries, k) || (amount > 0 && k == key)
  {
    if amount > 0 {
      match Post(b, user, amount, Some(key))
      case Some(c) => PostGrows(b, c, user, amount, Some(key), a);
    }
  }

  lemma TakeBothBack(c: Bank, u: Undo, hostKey: string, platformKey: string, b': Bank, a: AccountId)
    requires TakeBack(TakeBack(Some(c), u.host, u.net, hostKey), u.platform, u.fee, platformKey) == Some(b')
    ensures Grew(c, b', -Taken(u.host, u.net) - Taken(u.platform, u.fee), a,
      -(if Is(u.host, a) then Taken(u.host, u.net) else 0)
      - (if Is(u.platform, a) then Taken(u.platform, u.fee) else 0))
  {
    match TakeBack(Some(c), u.host, u.net, hostKey)
    case Some(d) =>
      TakeBackGrows(c, u.host, u.net, hostKey, d, a);
      TakeBackGrows(d, u.platform, u.fee, platformKey, b', a);
  }

  /** The reversal pays the buyer back, in wallet and ledger alike, and takes the host's and the
      platform's parts off their ledger sums. */
  lemma ReverseMoves(b: Bank, u: Undo, refundKey: string, hostKey: string, platformKey: string, b': Bank, a: AccountId)
    requires ReverseWith(b, u, refundKey, hostKey, platformKey) == Reversed(b')
    ensures b.entries <= b'.entries
    ensures Total(b'.entries) == Total(b.entries) + Given(u) - Taken(u.host, u.net) - Taken(u.platform, u.fee)
    ensures u.amount > 0 ==> u.user in b.balances && b'.balances == b.balances[u.user := b.balances[u.user] + u.amount]
    ensures u.amount <= 0 ==> b'.balances == b.balances
    ensures LedgerSum(b'.entries, a) == LedgerSum(b.entries, a) + UndoDelta(u, a)
    ensures u.amount > 0 ==> HasKey(b'.entries, refundKey)
  {
    match Refund(b, u.user, u.amount, refundKey)
    case Some(c) =>
      RefundPays(b, u.user, u.amount, refundKey, c, a);
      TakeBothBack(c, u, hostKey, platformKey, b', a);
  }

  /** In figures, for a sale with every account known and positive parts: the buyer gets the
      price back, the host returns its net earning and the platform its fee. */
  lemma ReverseFigures(b: Bank, u: Undo, b': Bank)
    requires u.host.Some? && u.platform.Some? && u.amount > 0 && u.net > 0 && u.fee > 0
    requires u.user != u.host.value && u.user != u.platform.value && u.host != u.platform
    requires Reverse(b, u) == Reversed(b')
    ensures u.user in b.balances && b'.balances == b.balances[u.user := b.balances[u.user] + u.amount]
    ensures LedgerSum(b'.entries, u.user) == LedgerSum(b.entries, u.user) + u.amount
    ensures LedgerSum(b'.entries, u.host.value) == LedgerSum(b.entries, u.host.value) - u.net
    ensures LedgerSum(b'.entries, u.platform.value) == LedgerSum(b.entries, u.platform.value) - u.fee
  {
    var r := u.reference;
    ReverseMoves(b, u, RefundKey(r), HostKey(r), PlatformKey(r), b', u.user);
    ReverseMoves(b, u, RefundKey(r), HostKey(r), PlatformKey(r), b', u.host.value);
    ReverseMoves(b, u, RefundKey(r), HostKey(r), PlatformKey(r), b', u.platform.value);
  }

  /** The three keys never coincide, whatever the reference. */
  lemma KeysApart(r: string)
    ensures RefundKey(r) != HostKey(r) && RefundKey(r) != PlatformKey(r) && HostKey(r) != PlatformKey(r)
  {
    assert RefundKey(r)[0] == 'r' && HostKey(r)[0] == 'c' && PlatformKey(r)[0] == 'c';
    assert HostKey(r)[13] == 'd' && PlatformKey(r)[13] == 'p';
  }

  /** A part that is written finds its account and an unused key. */
  ghost predicate Writable(b: Bank, account: Option<AccountId>, amount: int, key: string) {
    amount > 0 && account.Some? ==> account.value in b.balances && !HasKey(b.entries, key)
  }

  lemma ReverseWithSucceedsIff(b: Bank, u: Undo, refundKey: string, hostKey: string, platformKey: string)
    requires NoNegativeBalance(b) && refundKey != hostKey && refundKey != platformKey && hostKey != platformKey
    ensures ReverseWith(b, u, refundKey, hostKey, platformKey).Reversed? <==>
      && Writable(b, Some(u.user), u.amount, refundKey) && Writable(b, u.host, u.net, hostKey)
      && Writable(b, u.platform, u.fee, platformKey) && (u.amount > 0 ==> u.rowFree)
  {
    match Refund(b, u.user, u.amount, refundKey)
    case None =>
    case Some(c) =>
      RefundPays(b, u.user, u.amount, refundKey, c, u.user);
      match TakeBack(Some(c), u.host, u.net, hostKey)
      case None =>
      case Some(d) => TakeBackGrows(c, u.host, u.net, hostKey, d, u.user);
  }

  /** A reversal goes through exactly when each part it writes finds its account and an unused
      key, the refund's payments row included. */
  lemma ReverseSucceedsIff(b: Bank, u: Undo)
    requires NoNegativeBalance(b)
    ensures Reverse(b, u).Reversed? <==>
      && Writable(b, Some(u.user), u.amount, RefundKey(u.reference))
      && Writable(b, u.host, u.net, HostKey(u.reference))
      && Writable(b, u.platform, u.fee, PlatformKey(u.reference))
      && (u.amount > 0 ==> u.rowFree)
  {
    KeysApart(u.reference);
    ReverseWithSucceedsIff(b, u, RefundKey(u.reference), HostKey(u.reference), PlatformKey(u.reference));
  }

  // ---------------------------------------------------------------- round trip

  /** The reversal a cancelled booking asks for: exactly the amounts it was sold at. */
  function UndoOf(p: Parties, total: int, hostShare: int, reference: string, rowFree: bool): Undo {
    Undo(p.user, Some(p.host), Some(p.platform), total, hostShare, total - hostShare, reference, rowFree)
  }

  lemma DeltasCancel(p: Parties, total: int, hostShare: int, u: Undo)
    requires Separate(p) && total > 0 && u == UndoOf(p, total, hostShare, u.reference, u.rowFree)
    ensures (forall a :: PurchaseDelta(p, total, hostShare, a) + UndoDelta(u, a) == 0) <==> 0 <= hostShare <= total
  {
    if hostShare < 0 {
      assert PurchaseDelta(p, total, hostShare, p.host) + UndoDelta(u, p.host) != 0;
    } else if hostShare > total {
      assert PurchaseDelta(p, total, hostShare, p.platform) + UndoDelta(u, p.platform) != 0;
    }
  }

  /** The purchase and the later reversal cancel out in the ledger sum of `a`. */
  ghost predicate Restored(b: Bank, bought: Bank, later: Bank, undone: Bank, a: AccountId) {
    LedgerSum(bought.entries, a) - LedgerSum(b.entries, a) == LedgerSum(later.entries, a) - LedgerSum(undone.entries, a)
  }

  lemma RestoredIff(b: Bank, p: Parties, total: int, hostShare: int, key: string, bought: Bank,
                    later: Bank, u: Undo, undone: Bank, a: AccountId)
    requires Purchase(b, p, total, hostShare, key) == Some(bought)
    requires Reverse(later, u) == Reversed(undone)
    ensures Restored(b, bought, later, undone, a) <==> PurchaseDelta(p, total, hostShare, a) + UndoDelta(u, a) == 0
  {
    PurchaseMoves(b, p, total, hostShare, key, bought, a);
    ReverseMoves(later, u, RefundKey(u.reference), HostKey(u.reference), PlatformKey(u.reference), undone, a);
  }

  lemma AllRestoredIff(b: Bank, p: Parties, total: int, hostShare: int, key: string, bought: Bank,
                       later: Bank, u: Undo, undone: Bank)
    requires Purchase(b, p, total, hostShare, key) == Some(bought)
    requires Reverse(later, u) == Reversed(undone)
    ensures (forall a :: Restored(b, bought, later, undone, a))
      <==> forall a :: PurchaseDelta(p, total, hostShare, a) + UndoDelta(u, a) == 0
  {
    forall a
      ensures Restored(b, bought, later, undone, a) <==> PurchaseDelta(p, total, hostShare, a) + UndoDelta(u, a) == 0
    {
      RestoredIff(b, p, total, hostShare, key, bought, later, u, undone, a);
    }
  }

  /** Whatever happened in between, a purchase and its reversal together leave the buyer's
      wallet and every ledger sum where they were exactly when both shares of the price are
      non-negative. */
  lemma CancelUndoesPurchase(b: Bank, p: Parties, total: int, hostShare: int, key: string, bought: Bank,
                             later: Bank, reference: string, rowFree: bool, undone: Bank)
    requires Separate(p) && total > 0
    requires Purchase(b, p, total, hostShare, key) == Some(bought)
    requires Reverse(later, UndoOf(p, total, hostShare, reference, rowFree)) == Reversed(undone)
    ensures p.user in b.balances && bought.balances == b.balances[p.user := b.balances[p.user] - total]
    ensures p.user in later.balances && undone.balances == later.balances[p.user := later.balances[p.user] + total]
    ensures (forall a :: Restored(b, bought, later, undone, a)) <==> 0 <= hostShare <= total
  {
    var u := UndoOf(p, total, hostShare, reference, rowFree);
    PurchaseMoves(b, p, total, hostShare, key, bought, p.user);
    ReverseMoves(later, u, RefundKey(reference), HostKey(reference), PlatformKey(reference), undone, p.user);
    AllRestoredIff(b, p, total, hostShare, key, bought, later, u, undone);
    DeltasCancel(p, total, hostShare, u);
  }

  /** Once a paid reversal has gone through, another under the same reference is refused in
      every later state. */
  lemma RefundedOnce(b: Bank, u: Undo, later: Bank, again: Undo)
    requires u.amount > 0 && Reverse(b, u).Reversed? && Reverse(b, u).bank.entries <= later.entries
    requires again.amount > 0 && again.reference == u.reference
    ensures Reverse(later, again) == AlreadyRefunded
  {
    var b' := Reverse(b, u).bank;
    var key := RefundKey(u.reference);
    ReverseMoves(b, u, key, HostKey(u.reference), PlatformKey(u.reference), b', u.user);
    var i :| 0 <= i < |b'.entries| && b'.entries[i].key == Some(key);
    assert later.entries[i] == b'.entries[i];
  }

  // ---------------------------------------------------------------- drift

  /** The buyer's stored balance follows the ledger; the platform's and the host's never move,
      so each falls behind by what it was given. */
  lemma PurchaseDrift(b: Bank, p: Parties, total: int, hostShare: int, key: string)
    requires Separate(p) && Purchase(b, p, total, hostShare, key).Some?
    ensures var b' := Purchase(b, p, total, hostShare, key).value;
      && b'.balances.Keys == b.balances.Keys
      && forall a | a in b.balances :: Drift(b', a) == Drift(b, a)
           - (if a == p.platform then total - hostShare else 0) - (if a == p.host then hostShare else 0)
  {
    var b' := Purchase(b, p, total, hostShare, key).value;
    PurchaseMoves(b, p, total, hostShare, key, b', p.user);
    forall a | a in b.balances
      ensures Drift(b', a)
        == Drift(b, a) - (if a == p.platform then total - hostShare else 0) - (if a == p.host then hostShare else 0)
    {
      PurchaseMoves(b, p, total, hostShare, key, b', a);
    }
  }

  /** Hence after any paid purchase a drift-free bank has a drifting account, and the next
      reconciliation cannot report success. */
  lemma PaidPurchaseDrifts(b: Bank, p: Parties, total: int, hostShare: int, key: string)
    requires Separate(p) && total != 0 && NoDrift(b) && Purchase(b, p, total, hostShare, key).Some?
    ensures !NoDrift(Purchase(b, p, total, hostShare, key).value)
  {
    var b' := Purchase(b, p, total, hostShare, key).value;
    PurchaseDrift(b, p, total, hostShare, key);
    PurchaseSucceedsIff(b, p, total, hostShare, key);
    assert Drift(b', p.platform) == hostShare - total && Drift(b', p.host) == -hostShare;
  }

  // ---------------------------------------------------------------- whole runs

  datatype Trade =
    | Buy(parties: Parties, total: int, hostShare: int, key: string)
    | Cancel(undo: Undo)

  function Apply(b: Bank, t: Trade): Bank {
    match t
    case Buy(p, total, hostShare, key) =>
      (match Purchase(b, p, total, hostShare, key) case None => b case Some(b') => b')
    case Cancel(u) => (match Reverse(b, u) case Reversed(b') => b' case _ => b)
  }

  function ApplyAll(b: Bank, ts: seq<Trade>): Bank {
    if ts == [] then b else Apply(ApplyAll(b, ts[..|ts| - 1]), ts[|ts| - 1])
  }

  /** A cancellation carrying the amounts of a sale whose shares were non-negative, with both
      counter-accounts found. */
  ghost predicate Balanced(t: Trade) {
    t.Cancel? ==> t.undo.host.Some? && t.undo.platform.Some? && t.undo.net >= 0 && t.undo.fee >= 0
                  && t.undo.amount == t.undo.net + t.undo.fee
  }

  /** `a` takes part in the trade as a buyer at most. */
  ghost predicate OnlyBuys(t: Trade, a: AccountId) {
    match t
    case Buy(p, _, _, _) => a != p.platform && a != p.host
    case Cancel(u) => !Is(u.platform, a) && !Is(u.host, a)
  }

  lemma TradeKeeps(b: Bank, t: Trade, buyer: AccountId)
    requires Balanced(t) && OnlyBuys(t, buyer) && buyer in b.balances
    ensures Total(Apply(b, t).entries) == Total(b.entries)
    ensures buyer in Apply(b, t).balances && Drift(Apply(b, t), buyer) == Drift(b, buyer)
  {
    match t
    case Buy(p, total, hostShare, key) =>
      if Purchase(b, p, total, hostShare, key).Some? { PurchaseMoves(b, p, total, hostShare, key, Apply(b, t), buyer); }
    case Cancel(u) =>
      var r := u.reference;
      if Reverse(b, u).Reversed? { ReverseMoves(b, u, RefundKey(r), HostKey(r), PlatformKey(r), Apply(b, t), buyer); }
  }

  /** Conservation over every run of purchases and reversals in any order, refused ones
      included: the ledger as a whole nets to what it did before, and a buyer's stored balance
      never departs from their ledger sum. */
  lemma {:induction false} TradesConserve(b: Bank, ts: seq<Trade>, buyer: AccountId)
    requires forall i :: 0 <= i < |ts| ==> Balanced(ts[i]) && OnlyBuys(ts[i], buyer)
    requires buyer in b.balances
    ensures Total(ApplyAll(b, ts).entries) == Total(b.entries)
    ensures buyer in ApplyAll(b, ts).balances && Drift(ApplyAll(b, ts), buyer) == Drift(b, buyer)
  {
    if ts != [] {
      var front := ts[..|ts| - 1];
      TradesConserve(b, front, buyer);
      TradeKeeps(ApplyAll(b, front), ts[|ts| - 1], buyer);
    }
  }
}
