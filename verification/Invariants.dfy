/** The money invariants of the database and their preservation by every operation. */
module Invariants {
  import opened Schema
  import opened Sums
  import opened Operations

  // ---- each transaction row's share of a wallet's buckets

  function PendingShare(w: WalletId): Transaction -> int {
    (t: Transaction) => if t.kind == DEPOSIT && t.status == INITIATED && t.receiver == Some(w) then t.amount else 0
  }

  function LockedShare(w: WalletId): Transaction -> int {
    (t: Transaction) => if t.kind == WITHDRAWAL && t.status == INITIATED && t.sender == Some(w) then t.amount else 0
  }

  function AvailableShare(w: WalletId): Transaction -> int {
    (t: Transaction) =>
      match t.kind
      case DEPOSIT => if t.status == SETTLED && t.receiver == Some(w) then t.amount else 0
      case WITHDRAWAL =>
        if (t.status == INITIATED || t.status == SETTLED) && t.sender == Some(w) then 0 - t.amount else 0
      case TRANSFER => (if t.receiver == Some(w) then t.amount else 0) - (if t.sender == Some(w) then t.amount else 0)
  }

  /** Money a ledger entry has not yet accounted for (or has accounted for too early). */
  function UnpostedShare(w: WalletId): Transaction -> int {
    (t: Transaction) =>
      if t.kind == DEPOSIT && t.status == INITIATED && t.receiver == Some(w) && t.provider != Some(INTERNAL)
      then t.amount
      else if t.kind == WITHDRAWAL && t.status == INITIATED && t.sender == Some(w) && t.provider == Some(INTERNAL)
      then t.amount
      else 0
  }

  function LedgerShare(w: WalletId): LedgerEntry -> int {
    (e: LedgerEntry) => if e.wallet != w then 0 else if e.direction == CREDIT then e.amount else 0 - e.amount
  }

  // ---- the invariant

  predicate TxWellFormed(t: Transaction, wallets: set<WalletId>) {
    && t.provider.Some?
    && (t.sender.Some? <==> t.kind != DEPOSIT)
    && (t.receiver.Some? <==> t.kind != WITHDRAWAL)
    && (t.sender.Some? ==> t.sender.value in wallets)
    && (t.receiver.Some? ==> t.receiver.value in wallets)
    && (if t.kind == TRANSFER
        then t.sender != t.receiver && t.status == SETTLED && t.provider == Some(INTERNAL)
        else t.status == INITIATED || (t.provider != Some(INTERNAL) && (t.status == SETTLED || t.status == FAILED)))
  }

  predicate OwnersConsistent(db: Db) {
    forall u | u in db.owners :: db.owners[u] in db.wallets && db.wallets[db.owners[u]].userId == u
  }

  predicate TxsWellFormed(db: Db) {
    forall t | 0 <= t < |db.txs| :: TxWellFormed(db.txs[t], db.wallets.Keys)
  }

  predicate UniqueKeys(db: Db) {
    forall i, j | 0 <= i < j < |db.txs| :: db.txs[i].key != db.txs[j].key
  }

  /** Finished by a provider: the statuses settle and fail stamp. */
  predicate Closed(t: Transaction) {
    t.kind != TRANSFER && (t.status == SETTLED || t.status == FAILED)
  }

  /** A transaction has a payment log exactly when it is closed; the log is unique and carries its status. */
  predicate LogsAgree(db: Db) {
    && (forall i | 0 <= i < |db.logs| ::
          db.logs[i].tx < |db.txs| && Closed(db.txs[db.logs[i].tx])
            && db.logs[i].status == db.txs[db.logs[i].tx].status)
    && (forall i, j | 0 <= i < j < |db.logs| :: db.logs[i].tx != db.logs[j].tx)
    && (forall t | 0 <= t < |db.txs| :: Closed(db.txs[t]) ==> HasLog(db.logs, t))
  }

  function EventTypeOf(kind: TransactionType): EventType {
    match kind
    case DEPOSIT => DEPOSIT_INITIATED
    case WITHDRAWAL => WITHDRAWAL_INITIATED
    case TRANSFER => TRANSFER_SETTLED
  }

  /** The wallet of a deposit or withdrawal. */
  function WalletOf(t: Transaction): Option<WalletId> {
    if t.kind == DEPOSIT then t.receiver else t.sender
  }

  /** The user named in an event's payload owns the wallet of its transaction. */
  predicate IsFor(db: Db, user: Option<UserId>, t: Transaction) {
    user.Some? && user.value in db.owners && WalletOf(t) == Some(db.owners[user.value])
  }

  /** Event i announces transaction i; a closed transaction's event is delivered. */
  predicate OutboxAgrees(db: Db) {
    && |db.outbox| == |db.txs|
    && forall i | 0 <= i < |db.txs| ::
         && db.outbox[i].tx == i
         && db.outbox[i].eventType == EventTypeOf(db.txs[i].kind)
         && (db.txs[i].kind != TRANSFER ==> IsFor(db, db.outbox[i].payloadUser, db.txs[i]))
         && (Closed(db.txs[i]) ==> db.outbox[i].delivered)
  }

  predicate UniqueCustomers(db: Db) {
    forall u, u' | u in db.customers && u' in db.customers && u != u' :: db.customers[u] != db.customers[u']
  }

  predicate InCurrency(wallets: map<WalletId, Wallet>, w: Option<WalletId>, c: Currency) {
    w.Some? && w.value in wallets ==> wallets[w.value].currency == c
  }

  /** Rows and entries are in the currency of the wallets they touch. */
  predicate CurrenciesAgree(db: Db) {
    && (forall t | 0 <= t < |db.txs| ::
          InCurrency(db.wallets, db.txs[t].sender, db.txs[t].currency)
          && InCurrency(db.wallets, db.txs[t].receiver, db.txs[t].currency))
    && (forall i | 0 <= i < |db.ledger| :: InCurrency(db.wallets, Some(db.ledger[i].wallet), db.ledger[i].currency))
  }

  /** The three buckets of a wallet are exactly what the transaction table says. */
  predicate WalletCached(db: Db, w: WalletId)
    requires w in db.wallets
  {
    && db.wallets[w].pending == Sum(db.txs, PendingShare(w))
    && db.wallets[w].locked == Sum(db.txs, LockedShare(w))
    && db.wallets[w].available == Sum(db.txs, AvailableShare(w))
  }

  predicate WalletReconciled(db: Db, w: WalletId)
    requires w in db.wallets
  {
    var row := db.wallets[w];
    row.available + row.locked + row.pending == Sum(db.ledger, LedgerShare(w)) + Sum(db.txs, UnpostedShare(w))
  }

  predicate InRange(w: Wallet) {
    0 <= w.available && 0 <= w.locked && 0 <= w.pending && WalletFits(w)
  }

  predicate WalletSound(db: Db, w: WalletId)
    requires w in db.wallets
  {
    WalletCached(db, w) && WalletReconciled(db, w) && InRange(db.wallets[w])
  }

  predicate LedgerWellFormed(db: Db) {
    forall i | 0 <= i < |db.ledger| :: db.ledger[i].tx < |db.txs| && db.ledger[i].wallet in db.wallets
  }

  predicate Inv(db: Db) {
    && OwnersConsistent(db)
    && TxsWellFormed(db)
    && UniqueKeys(db)
    && LogsAgree(db)
    && OutboxAgrees(db)
    && LedgerWellFormed(db)
    && UniqueCustomers(db)
    && CurrenciesAgree(db)
    && forall w | w in db.wallets :: WalletSound(db, w)
  }

  /** A database with users and empty wallets only, as registration leaves it. */
  predicate Fresh(db: Db) {
    && OwnersConsistent(db)
    && db.txs == [] && db.ledger == [] && db.logs == [] && db.outbox == [] && db.customers == map[]
    && forall w | w in db.wallets ::
         db.wallets[w].available == 0 && db.wallets[w].locked == 0 && db.wallets[w].pending == 0
  }

  lemma {:induction false} FreshInv(db: Db)
    requires Fresh(db)
    ensures Inv(db)
  {
  }

  // ---- which calls can happen

  /** The immutable columns of row `t` are the ones `ctx` carries; the status may be stale. */
  predicate Describes(ctx: TransactionContext, t: Transaction) {
    && ctx.kind == t.kind && ctx.amount == t.amount && ctx.currency == t.currency
    && ctx.provider == t.provider && ctx.sender == t.sender && ctx.receiver == t.receiver
  }

  /** A row's own columns as a settlement context. */
  function ContextOf(t: TxId, user: UserId, row: Transaction): TransactionContext {
    TransactionContext(t, user, row.kind, row.status, row.amount, row.currency, row.provider, row.sender, row.receiver)
  }

  /** The registry resolves STRIPE and PAYPAL only. */
  predicate Resolvable(p: Option<Provider>) {
    p.Some? && p.value != INTERNAL
  }

  /**
   * What a caller of an operation guarantees: a context read from the table, for a resolvable provider and the user
   * whose wallet it names, with its event.
   */
  predicate Callable(db: Db, op: Operation) {
    match op
    case Settle(ctx, e, _) => CallableSettlement(db, ctx, e)
    case Fail(ctx, e) => CallableSettlement(db, ctx, e)
    case MarkDelivered(e) => e < |db.outbox|
    case IncrementRetry(e) => e < |db.outbox|
    case ConfirmDeposit(_, _, _, _, p) => p != INTERNAL
    case CreatePayout(_, _, _, _, p, _) => p != INTERNAL
    case _ => true
  }

  predicate CallableSettlement(db: Db, ctx: TransactionContext, e: EventId) {
    && ctx.id < |db.txs| && Describes(ctx, db.txs[ctx.id]) && Resolvable(ctx.provider)
    && e < |db.outbox| && db.outbox[e].tx == ctx.id
    && ctx.user in db.owners && (ctx.kind != TRANSFER ==> SettlementWallet(ctx) == Some(db.owners[ctx.user]))
  }

  // ---- opening a transaction

  predicate SameHolder(a: Wallet, b: Wallet) {
    a.userId == b.userId && a.currency == b.currency
  }

  /** `after` is `db` with one more row, its entries and its event, and with wallets of the same owners. */
  predicate Opened(db: Db, after: Db, row: Transaction, entries: seq<LedgerEntry>, user: Option<UserId>) {
    && after.owners == db.owners && after.wallets.Keys == db.wallets.Keys && after.customers == db.customers
    && (forall w | w in db.wallets :: SameHolder(db.wallets[w], after.wallets[w]))
    && !KeyTaken(db.txs, row.key)
    && after.txs == db.txs + [row]
    && after.ledger == db.ledger + entries
    && after.logs == db.logs
    && after.outbox == db.outbox + [OutboxEvent(|db.txs|, EventTypeOf(row.kind), user, false, 0)]
  }

  /** The row and the entries an operation opens with are in order. */
  predicate FitToOpen(db: Db, row: Transaction, entries: seq<LedgerEntry>, user: Option<UserId>) {
    && TxWellFormed(row, db.wallets.Keys) && !Closed(row)
    && (row.kind != TRANSFER ==> IsFor(db, user, row))
    && InCurrency(db.wallets, row.sender, row.currency) && InCurrency(db.wallets, row.receiver, row.currency)
    && |entries| <= 2
    && forall i | 0 <= i < |entries| ::
         entries[i].tx == |db.txs| && entries[i].wallet in db.wallets
         && InCurrency(db.wallets, Some(entries[i].wallet), entries[i].currency)
  }

  /** Wallet `w` moved by exactly the shares of `row`, of which `entries` post all but the unposted share. */
  predicate Moved(b: Wallet, d: Wallet, row: Transaction, entries: seq<LedgerEntry>, w: WalletId) {
    && d.pending == b.pending + PendingShare(w)(row)
    && d.locked == b.locked + LockedShare(w)(row)
    && d.available == b.available + AvailableShare(w)(row)
    && PendingShare(w)(row) + LockedShare(w)(row) + AvailableShare(w)(row)
       == UnpostedShare(w)(row)
          + (if |entries| > 0 then LedgerShare(w)(entries[0]) else 0)
          + (if |entries| > 1 then LedgerShare(w)(entries[1]) else 0)
  }

  predicate AllMoved(db: Db, after: Db, row: Transaction, entries: seq<LedgerEntry>)
    requires after.wallets.Keys == db.wallets.Keys
  {
    forall w | w in db.wallets && InRange(db.wallets[w]) ::
      Moved(db.wallets[w], after.wallets[w], row, entries, w) && InRange(after.wallets[w])
  }

  lemma {:induction false} OpenKeepsSums(txs: seq<Transaction>, row: Transaction, w: WalletId)
    ensures Sum(txs + [row], PendingShare(w)) == Sum(txs, PendingShare(w)) + PendingShare(w)(row)
    ensures Sum(txs + [row], LockedShare(w)) == Sum(txs, LockedShare(w)) + LockedShare(w)(row)
    ensures Sum(txs + [row], AvailableShare(w)) == Sum(txs, AvailableShare(w)) + AvailableShare(w)(row)
    ensures Sum(txs + [row], UnpostedShare(w)) == Sum(txs, UnpostedShare(w)) + UnpostedShare(w)(row)
  {
    SumAppend(txs, row, PendingShare(w));
    SumAppend(txs, row, LockedShare(w));
    SumAppend(txs, row, AvailableShare(w));
    SumAppend(txs, row, UnpostedShare(w));
  }

  lemma {:induction false} EntriesAddUp(ledger: seq<LedgerEntry>, entries: seq<LedgerEntry>, w: WalletId)
    requires |entries| <= 2
    ensures Sum(ledger + entries, LedgerShare(w)) == Sum(ledger, LedgerShare(w))
              + (if |entries| > 0 then LedgerShare(w)(entries[0]) else 0)
              + (if |entries| > 1 then LedgerShare(w)(entries[1]) else 0)
  {
    if |entries| == 0 {
      assert ledger + entries == ledger;
    } else if |entries| == 1 {
      assert ledger + entries == ledger + [entries[0]];
      SumAppend(ledger, entries[0], LedgerShare(w));
    } else {
      assert ledger + entries == ledger + [entries[0]] + [entries[1]];
      SumAppend(ledger, entries[0], LedgerShare(w));
      SumAppend(ledger + [entries[0]], entries[1], LedgerShare(w));
    }
  }

  /** A wallet that moves by the shares of the new row stays what the tables say. */
  lemma {:induction false} OpenKeepsWallet(db: Db, after: Db, row: Transaction, entries: seq<LedgerEntry>,
                                           user: Option<UserId>, w: WalletId)
    requires Opened(db, after, row, entries, user) && |entries| <= 2
    requires w in db.wallets && WalletSound(db, w)
    requires Moved(db.wallets[w], after.wallets[w], row, entries, w) && InRange(after.wallets[w])
    ensures WalletSound(after, w)
  {
    OpenKeepsSums(db.txs, row, w);
    EntriesAddUp(db.ledger, entries, w);
  }

  lemma {:induction false} OpenKeepsLogs(db: Db, row: Transaction, after: Db)
    requires LogsAgree(db) && !Closed(row) && after.txs == db.txs + [row] && after.logs == db.logs
    ensures LogsAgree(after)
  {
    forall t | 0 <= t < |after.txs| && Closed(after.txs[t])
      ensures HasLog(after.logs, t)
    {
      assert after.txs[t] == db.txs[t];
    }
  }

  lemma {:induction false} OpenKeepsOutbox(db: Db, row: Transaction, event: OutboxEvent, after: Db)
    requires OutboxAgrees(db) && !Closed(row) && after.txs == db.txs + [row] && after.outbox == db.outbox + [event]
    requires event.tx == |db.txs| && event.eventType == EventTypeOf(row.kind) && after.owners == db.owners
    requires row.kind != TRANSFER ==> IsFor(db, event.payloadUser, row)
    ensures OutboxAgrees(after)
  {
  }

  lemma {:induction false} OpenKeepsKeys(db: Db, row: Transaction, after: Db)
    requires UniqueKeys(db) && !KeyTaken(db.txs, row.key) && after.txs == db.txs + [row]
    ensures UniqueKeys(after)
  {
  }

  lemma {:induction false} OpenKeepsRows(db: Db, after: Db, row: Transaction, entries: seq<LedgerEntry>,
                                         user: Option<UserId>)
    requires OwnersConsistent(db) && TxsWellFormed(db) && LedgerWellFormed(db)
    requires Opened(db, after, row, entries, user) && FitToOpen(db, row, entries, user)
    ensures OwnersConsistent(after) && TxsWellFormed(after) && LedgerWellFormed(after)
  {
  }

  lemma {:induction false} OpenKeepsCurrencies(db: Db, after: Db, row: Transaction, entries: seq<LedgerEntry>,
                                               user: Option<UserId>)
    requires CurrenciesAgree(db) && Opened(db, after, row, entries, user) && FitToOpen(db, row, entries, user)
    ensures CurrenciesAgree(after)
  {
    forall i | 0 <= i < |after.ledger|
      ensures InCurrency(after.wallets, Some(after.ledger[i].wallet), after.ledger[i].currency)
    {
      if i < |db.ledger| {
        assert after.ledger[i] == db.ledger[i];
      } else {
        assert after.ledger[i] == entries[i - |db.ledger|];
      }
    }
  }

  /** Opening keeps the whole invariant when every wallet moves by its share of the new row and stays in range. */
  lemma {:induction false} OpenKeepsInv(db: Db, after: Db, row: Transaction, entries: seq<LedgerEntry>,
                                        user: Option<UserId>)
    requires Inv(db) && Opened(db, after, row, entries, user) && FitToOpen(db, row, entries, user)
    requires AllMoved(db, after, row, entries)
    ensures Inv(after)
  {
    OpenKeepsRows(db, after, row, entries, user);
    OpenKeepsLogs(db, row, after);
    OpenKeepsOutbox(db, row, after.outbox[|db.txs|], after);
    OpenKeepsKeys(db, row, after);
    OpenKeepsCurrencies(db, after, row, entries, user);
    forall w | w in after.wallets
      ensures WalletSound(after, w)
    {
      assert WalletSound(db, w);
      OpenKeepsWallet(db, after, row, entries, user, w);
    }
  }

  // What the three initiations open with.

  function DepositRow(db: Db, user: UserId, key: IdempotencyKey, amount: Amount, currency: Currency,
                      provider: Provider): Transaction
    requires user in db.owners
  {
    Transaction(key, DEPOSIT, INITIATED, amount, currency, None, Some(db.owners[user]), Some(provider))
  }

  function DepositEntries(db: Db, user: UserId, amount: Amount, currency: Currency,
                          provider: Provider): seq<LedgerEntry>
    requires user in db.owners && db.owners[user] in db.wallets
  {
    var id := db.owners[user];
    if provider == INTERNAL
    then [LedgerEntry(id, |db.txs|, CREDIT, amount, currency, db.wallets[id].pending + amount)] else []
  }

  lemma {:induction false} DepositOpens(db: Db, user: UserId, key: IdempotencyKey, amount: Amount, currency: Currency,
                                        provider: Provider)
    requires DepositBody(db, user, key, amount, currency, provider).Ok?
    ensures user in db.owners && db.owners[user] in db.wallets
    ensures var after := DepositBody(db, user, key, amount, currency, provider).value;
            var id := db.owners[user];
            && Opened(db, after, DepositRow(db, user, key, amount, currency, provider),
                      DepositEntries(db, user, amount, currency, provider), Some(user))
            && FitToOpen(db, DepositRow(db, user, key, amount, currency, provider),
                         DepositEntries(db, user, amount, currency, provider), Some(user))
            && after.wallets == db.wallets[id := Shift(db.wallets[id], 0, 0, amount)]
            && WalletFits(after.wallets[id])
  {
  }

  lemma {:induction false} DepositMoves(db: Db, user: UserId, key: IdempotencyKey, amount: Amount, currency: Currency,
                                        provider: Provider, w: WalletId)
    requires user in db.owners && db.owners[user] in db.wallets && w in db.wallets && InRange(db.wallets[w])
    requires WalletFits(Shift(db.wallets[db.owners[user]], 0, 0, amount))
    ensures var id := db.owners[user];
            var d := if w == id then Shift(db.wallets[w], 0, 0, amount) else db.wallets[w];
            && Moved(db.wallets[w], d, DepositRow(db, user, key, amount, currency, provider),
                     DepositEntries(db, user, amount, currency, provider), w)
            && InRange(d)
  {
  }

  lemma {:induction false} DepositMovesAll(db: Db, after: Db, user: UserId, key: IdempotencyKey, amount: Amount,
                                           currency: Currency, provider: Provider)
    requires user in db.owners && db.owners[user] in db.wallets
    requires after.wallets == db.wallets[db.owners[user] := Shift(db.wallets[db.owners[user]], 0, 0, amount)]
    requires WalletFits(after.wallets[db.owners[user]])
    ensures AllMoved(db, after, DepositRow(db, user, key, amount, currency, provider),
                     DepositEntries(db, user, amount, currency, provider))
  {
    forall w | w in db.wallets && InRange(db.wallets[w])
      ensures Moved(db.wallets[w], after.wallets[w], DepositRow(db, user, key, amount, currency, provider),
                    DepositEntries(db, user, amount, currency, provider), w)
      ensures InRange(after.wallets[w])
    {
      DepositMoves(db, user, key, amount, currency, provider, w);
    }
  }

  lemma {:induction false} DepositKeepsInv(db: Db, user: UserId, key: IdempotencyKey, amount: Amount,
                                           currency: Currency, provider: Provider)
    requires Inv(db) && DepositBody(db, user, key, amount, currency, provider).Ok?
    ensures Inv(DepositBody(db, user, key, amount, currency, provider).value)
  {
    var after := DepositBody(db, user, key, amount, currency, provider).value;
    DepositOpens(db, user, key, amount, currency, provider);
    DepositMovesAll(db, after, user, key, amount, currency, provider);
    OpenKeepsInv(db, after, DepositRow(db, user, key, amount, currency, provider),
                 DepositEntries(db, user, amount, currency, provider), Some(user));
  }

  lemma {:induction false} DepositKeepsWallet(db: Db, user: UserId, key: IdempotencyKey, amount: Amount,
                                              currency: Currency, provider: Provider, w: WalletId)
    requires DepositBody(db, user, key, amount, currency, provider).Ok?
    requires w in db.wallets && WalletSound(db, w)
    ensures var after := DepositBody(db, user, key, amount, currency, provider).value;
            w in after.wallets && WalletSound(after, w)
  {
    DepositOpens(db, user, key, amount, currency, provider);
    DepositMoves(db, user, key, amount, currency, provider, w);
    OpenKeepsWallet(db, DepositBody(db, user, key, amount, currency, provider).value,
                    DepositRow(db, user, key, amount, currency, provider),
                    DepositEntries(db, user, amount, currency, provider), Some(user), w);
  }

  function WithdrawalRow(db: Db, user: UserId, key: IdempotencyKey, amount: Amount, currency: Currency,
                         provider: Provider): Transaction
    requires user in db.owners
  {
    Transaction(key, WITHDRAWAL, INITIATED, amount, currency, Some(db.owners[user]), None, Some(provider))
  }

  function WithdrawalEntries(db: Db, user: UserId, amount: Amount, currency: Currency,
                             provider: Provider): seq<LedgerEntry>
    requires user in db.owners && db.owners[user] in db.wallets
  {
    var id := db.owners[user];
    if provider == INTERNAL
    then [LedgerEntry(id, |db.txs|, DEBIT, amount, currency, db.wallets[id].locked + amount)] else []
  }

  lemma {:induction false} WithdrawOpens(db: Db, user: UserId, key: IdempotencyKey, amount: Amount, currency: Currency,
                                         provider: Provider, linked: bool)
    requires WithdrawBody(db, user, key, amount, currency, provider, linked).Ok?
    ensures user in db.owners && db.owners[user] in db.wallets
    ensures var after := WithdrawBody(db, user, key, amount, currency, provider, linked).value;
            var id := db.owners[user];
            && Opened(db, after, WithdrawalRow(db, user, key, amount, currency, provider),
                      WithdrawalEntries(db, user, amount, currency, provider), Some(user))
            && FitToOpen(db, WithdrawalRow(db, user, key, amount, currency, provider),
                         WithdrawalEntries(db, user, amount, currency, provider), Some(user))
            && after.wallets == db.wallets[id := Shift(db.wallets[id], 0 - amount, amount, 0)]
            && WalletFits(after.wallets[id]) && amount <= db.wallets[id].available
  {
  }

  lemma {:induction false} WithdrawMoves(db: Db, user: UserId, key: IdempotencyKey, amount: Amount, currency: Currency,
                                         provider: Provider, w: WalletId)
    requires user in db.owners && db.owners[user] in db.wallets && w in db.wallets && InRange(db.wallets[w])
    requires WalletFits(Shift(db.wallets[db.owners[user]], 0 - amount, amount, 0))
    requires amount <= db.wallets[db.owners[user]].available
    ensures var id := db.owners[user];
            var d := if w == id then Shift(db.wallets[w], 0 - amount, amount, 0) else db.wallets[w];
            && Moved(db.wallets[w], d, WithdrawalRow(db, user, key, amount, currency, provider),
                     WithdrawalEntries(db, user, amount, currency, provider), w)
            && InRange(d)
  {
  }

  lemma {:induction false} WithdrawMovesAll(db: Db, after: Db, user: UserId, key: IdempotencyKey, amount: Amount,
                                            currency: Currency, provider: Provider)
    requires user in db.owners && db.owners[user] in db.wallets
    requires after.wallets == db.wallets[db.owners[user] := Shift(db.wallets[db.owners[user]], 0 - amount, amount, 0)]
    requires WalletFits(after.wallets[db.owners[user]]) && amount <= db.wallets[db.owners[user]].available
    ensures AllMoved(db, after, WithdrawalRow(db, user, key, amount, currency, provider),
                     WithdrawalEntries(db, user, amount, currency, provider))
  {
    forall w | w in db.wallets && InRange(db.wallets[w])
      ensures Moved(db.wallets[w], after.wallets[w], WithdrawalRow(db, user, key, amount, currency, provider),
                    WithdrawalEntries(db, user, amount, currency, provider), w)
      ensures InRange(after.wallets[w])
    {
      WithdrawMoves(db, user, key, amount, currency, provider, w);
    }
  }

  lemma {:induction false} WithdrawKeepsInv(db: Db, user: UserId, key: IdempotencyKey, amount: Amount,
                                            currency: Currency, provider: Provider, linked: bool)
    requires Inv(db) && WithdrawBody(db, user, key, amount, currency, provider, linked).Ok?
    ensures Inv(WithdrawBody(db, user, key, amount, currency, provider, linked).value)
  {
    var after := WithdrawBody(db, user, key, amount, currency, provider, linked).value;
    WithdrawOpens(db, user, key, amount, currency, provider, linked);
    WithdrawMovesAll(db, after, user, key, amount, currency, provider);
    OpenKeepsInv(db, after, WithdrawalRow(db, user, key, amount, currency, provider),
                 WithdrawalEntries(db, user, amount, currency, provider), Some(user));
  }

  lemma {:induction false} WithdrawKeepsWallet(db: Db, user: UserId, key: IdempotencyKey, amount: Amount,
                                               currency: Currency, provider: Provider, linked: bool, w: WalletId)
    requires WithdrawBody(db, user, key, amount, currency, provider, linked).Ok?
    requires w in db.wallets && WalletSound(db, w)
    ensures var after := WithdrawBody(db, user, key, amount, currency, provider, linked).value;
            w in after.wallets && WalletSound(after, w)
  {
    WithdrawOpens(db, user, key, amount, currency, provider, linked);
    WithdrawMoves(db, user, key, amount, currency, provider, w);
    OpenKeepsWallet(db, WithdrawBody(db, user, key, amount, currency, provider, linked).value,
                    WithdrawalRow(db, user, key, amount, currency, provider),
                    WithdrawalEntries(db, user, amount, currency, provider), Some(user), w);
  }

  function TransferRow(s: WalletId, r: WalletId, key: IdempotencyKey, amount: Amount, currency: Currency): Transaction {
    Transaction(key, TRANSFER, SETTLED, amount, currency, Some(s), Some(r), Some(INTERNAL))
  }

  function TransferEntries(db: Db, s: WalletId, r: WalletId, amount: Amount, currency: Currency): seq<LedgerEntry>
    requires s in db.wallets && r in db.wallets
  {
    [LedgerEntry(s, |db.txs|, DEBIT, amount, currency, db.wallets[s].available - amount),
     LedgerEntry(r, |db.txs|, CREDIT, amount, currency, db.wallets[r].available + amount)]
  }

  function TransferWallets(db: Db, s: WalletId, r: WalletId, amount: Amount): map<WalletId, Wallet>
    requires s in db.wallets && r in db.wallets
  {
    db.wallets[s := Shift(db.wallets[s], 0 - amount, 0, 0)][r := Shift(db.wallets[r], amount, 0, 0)]
  }

  lemma {:induction false} TransferOpens(db: Db, user: UserId, recipient: UserId, key: IdempotencyKey, amount: Amount,
                                         currency: Currency)
    requires OwnersConsistent(db) && TransferBody(db, user, recipient, key, amount, currency).Ok?
    ensures user in db.owners && recipient in db.owners
    ensures db.owners[user] in db.wallets && db.owners[recipient] in db.wallets
            && db.owners[user] != db.owners[recipient]
    ensures var after := TransferBody(db, user, recipient, key, amount, currency).value;
            var s, r := db.owners[user], db.owners[recipient];
            && Opened(db, after, TransferRow(s, r, key, amount, currency),
               TransferEntries(db, s, r, amount, currency), None)
            && FitToOpen(db, TransferRow(s, r, key, amount, currency), TransferEntries(db, s, r, amount, currency),
               None)
            && after.wallets == TransferWallets(db, s, r, amount)
            && WalletFits(after.wallets[s]) && WalletFits(after.wallets[r]) && amount <= db.wallets[s].available
  {
    assert db.owners[user] != db.owners[recipient];
  }

  lemma {:induction false} TransferMoves(db: Db, s: WalletId, r: WalletId, key: IdempotencyKey, amount: Amount,
                                         currency: Currency, w: WalletId)
    requires s in db.wallets && r in db.wallets && s != r && w in db.wallets && InRange(db.wallets[w])
    requires amount <= db.wallets[s].available
    requires WalletFits(TransferWallets(db, s, r, amount)[s]) && WalletFits(TransferWallets(db, s, r, amount)[r])
    ensures var d := TransferWallets(db, s, r, amount)[w];
            && Moved(db.wallets[w], d, TransferRow(s, r, key, amount, currency),
               TransferEntries(db, s, r, amount, currency), w)
            && InRange(d)
  {
  }

  lemma {:induction false} TransferMovesAll(db: Db, after: Db, s: WalletId, r: WalletId, key: IdempotencyKey,
                                            amount: Amount, currency: Currency)
    requires s in db.wallets && r in db.wallets && s != r && after.wallets == TransferWallets(db, s, r, amount)
    requires WalletFits(after.wallets[s]) && WalletFits(after.wallets[r]) && amount <= db.wallets[s].available
    ensures AllMoved(db, after, TransferRow(s, r, key, amount, currency), TransferEntries(db, s, r, amount, currency))
  {
    forall w | w in db.wallets && InRange(db.wallets[w])
      ensures Moved(db.wallets[w], after.wallets[w], TransferRow(s, r, key, amount, currency),
                    TransferEntries(db, s, r, amount, currency), w)
      ensures InRange(after.wallets[w])
    {
      TransferMoves(db, s, r, key, amount, currency, w);
    }
  }

  lemma {:induction false} TransferKeepsInv(db: Db, user: UserId, recipient: UserId, key: IdempotencyKey,
                                            amount: Amount, currency: Currency)
    requires Inv(db) && TransferBody(db, user, recipient, key, amount, currency).Ok?
    ensures Inv(TransferBody(db, user, recipient, key, amount, currency).value)
  {
    var after := TransferBody(db, user, recipient, key, amount, currency).value;
    TransferOpens(db, user, recipient, key, amount, currency);
    var s, r := db.owners[user], db.owners[recipient];
    TransferMovesAll(db, after, s, r, key, amount, currency);
    OpenKeepsInv(db, after, TransferRow(s, r, key, amount, currency), TransferEntries(db, s, r, amount, currency),
      None);
  }

  lemma {:induction false} TransferKeepsWallet(db: Db, user: UserId, recipient: UserId, key: IdempotencyKey,
                                               amount: Amount, currency: Currency, w: WalletId)
    requires OwnersConsistent(db)
    requires TransferBody(db, user, recipient, key, amount, currency).Ok?
    requires w in db.wallets && WalletSound(db, w)
    ensures var after := TransferBody(db, user, recipient, key, amount, currency).value;
            w in after.wallets && WalletSound(after, w)
  {
    TransferOpens(db, user, recipient, key, amount, currency);
    var s, r := db.owners[user], db.owners[recipient];
    TransferMoves(db, s, r, key, amount, currency, w);
    OpenKeepsWallet(db, TransferBody(db, user, recipient, key, amount, currency).value,
      TransferRow(s, r, key, amount, currency),
                    TransferEntries(db, s, r, amount, currency), None, w);
  }

  // ---- closing a transaction

  /** No payment log means still INITIATED: the unique log index is what guards a second settlement. */
  lemma {:induction false} UnloggedIsInitiated(db: Db, t: TxId)
    requires Inv(db) && t < |db.txs| && db.txs[t].kind != TRANSFER
    ensures db.txs[t].status == INITIATED <==> !HasLog(db.logs, t)
  {
    assert TxWellFormed(db.txs[t], db.wallets.Keys);
    if HasLog(db.logs, t) {
      var i :| 0 <= i < |db.logs| && db.logs[i].tx == t;
      assert Closed(db.txs[db.logs[i].tx]);
    }
  }

  function FinalStatus(settled: bool): TransactionStatus {
    if settled then SETTLED else FAILED
  }

  /** `after` is `db` with row `ctx.id` closed: one wallet moved, and status, entry, log and delivery mark written. */
  predicate ClosedBy(db: Db, after: Db, ctx: TransactionContext, event: EventId, v: Verdict) {
    && CallableSettlement(db, ctx, event) && ctx.kind != TRANSFER && !HasLog(db.logs, ctx.id)
    && SettlementWallet(ctx).Some? && SettlementWallet(ctx).value in db.wallets
    && var id := SettlementWallet(ctx).value;
       var moved := SettlementShift(db.wallets[id], ctx, v.Settled?);
       && WalletFits(moved)
       && after.owners == db.owners
       && after.wallets == db.wallets[id := moved]
       && after.txs == db.txs[ctx.id := db.txs[ctx.id].(status := FinalStatus(v.Settled?))]
       && after.ledger == db.ledger + SettlementEntries(moved, id, ctx, v.Settled?)
       && after.logs == db.logs + [PaymentLog(ctx.id, ctx.provider.value, FinalStatus(v.Settled?))]
       && after.outbox == db.outbox[event := db.outbox[event].(delivered := true)]
       && CustomerKept(db, after, ctx.user, NewCustomer(ctx, v))
  }

  /** `after` has the user's customer id, if there is a new one, and nobody else has it. */
  predicate CustomerKept(db: Db, after: Db, user: UserId, customer: Option<CustomerId>) {
    if customer.None? then after.customers == db.customers
    else after.customers == db.customers[user := customer.value] && !HeldByAnother(db, user, customer.value)
  }

  lemma {:induction false} SettlementCloses(db: Db, ctx: TransactionContext, event: EventId, v: Verdict)
    requires UniqueCustomers(db) && CallableSettlement(db, ctx, event) && SettlementBody(db, ctx, event, v).Ok?
    ensures ClosedBy(db, SettlementBody(db, ctx, event, v).value, ctx, event, v)
  {
  }

  /** The wallets move by what closing the row changes in its shares; entries and unposted share account for it. */
  lemma {:induction false} SettlementMoves(db: Db, after: Db, ctx: TransactionContext, event: EventId, v: Verdict,
                                           w: WalletId)
    requires ClosedBy(db, after, ctx, event, v) && w in db.wallets
    requires TxWellFormed(db.txs[ctx.id], db.wallets.Keys) && db.txs[ctx.id].status == INITIATED
    ensures var b, d := db.wallets[w], after.wallets[w];
            var t, t' := db.txs[ctx.id], after.txs[ctx.id];
            var entries := SettlementEntries(after.wallets[SettlementWallet(ctx).value], SettlementWallet(ctx).value,
              ctx, v.Settled?);
            && d.pending - b.pending == PendingShare(w)(t') - PendingShare(w)(t)
            && d.locked - b.locked == LockedShare(w)(t') - LockedShare(w)(t)
            && d.available - b.available == AvailableShare(w)(t') - AvailableShare(w)(t)
            && |entries| <= 1
            && (d.available + d.locked + d.pending) - (b.available + b.locked + b.pending)
               == UnpostedShare(w)(t') - UnpostedShare(w)(t) + (if |entries| > 0 then LedgerShare(w)(entries[0]) else 0)
  {
  }

  lemma {:induction false} SettlementKeepsCache(db: Db, after: Db, ctx: TransactionContext, event: EventId,
                                                v: Verdict, w: WalletId)
    requires TxsWellFormed(db) && ClosedBy(db, after, ctx, event, v) && db.txs[ctx.id].status == INITIATED
    requires w in db.wallets && WalletCached(db, w)
    ensures WalletCached(after, w)
  {
    SettlementMoves(db, after, ctx, event, v, w);
    SumUpdate(db.txs, ctx.id, after.txs[ctx.id], PendingShare(w));
    SumUpdate(db.txs, ctx.id, after.txs[ctx.id], LockedShare(w));
    SumUpdate(db.txs, ctx.id, after.txs[ctx.id], AvailableShare(w));
  }

  lemma {:induction false} SettlementKeepsReconciliation(db: Db, after: Db, ctx: TransactionContext, event: EventId,
                                                         v: Verdict, w: WalletId)
    requires TxsWellFormed(db) && ClosedBy(db, after, ctx, event, v) && db.txs[ctx.id].status == INITIATED
    requires w in db.wallets && WalletReconciled(db, w)
    ensures WalletReconciled(after, w)
  {
    SettlementMoves(db, after, ctx, event, v, w);
    SumUpdate(db.txs, ctx.id, after.txs[ctx.id], UnpostedShare(w));
    var id := SettlementWallet(ctx).value;
    EntriesAddUp(db.ledger, SettlementEntries(after.wallets[id], id, ctx, v.Settled?), w);
  }

  lemma {:induction false} SettlementKeepsRange(db: Db, after: Db, ctx: TransactionContext, event: EventId,
                                                v: Verdict, w: WalletId)
    requires TxsWellFormed(db) && ClosedBy(db, after, ctx, event, v) && db.txs[ctx.id].status == INITIATED
    requires w in db.wallets && WalletCached(db, w) && InRange(db.wallets[w])
    ensures InRange(after.wallets[w])
  {
    assert TxWellFormed(db.txs[ctx.id], db.wallets.Keys);
    BucketsCoverOpenRows(db, w);
    assert PendingShare(w)(db.txs[ctx.id]) <= db.wallets[w].pending
      && LockedShare(w)(db.txs[ctx.id]) <= db.wallets[w].locked;
  }

  /** The decrements of settle and fail are unguarded: the cache keeps them from going below zero. */
  lemma {:induction false} BucketsCoverOpenRows(db: Db, w: WalletId)
    requires TxsWellFormed(db)
    ensures 0 <= Sum(db.txs, PendingShare(w)) && 0 <= Sum(db.txs, LockedShare(w))
    ensures forall t | 0 <= t < |db.txs| ::
              PendingShare(w)(db.txs[t]) <= Sum(db.txs, PendingShare(w))
                && LockedShare(w)(db.txs[t]) <= Sum(db.txs, LockedShare(w))
  {
    SumNonNegative(db.txs, PendingShare(w));
    SumNonNegative(db.txs, LockedShare(w));
  }

  /** Row `t` gets a final status and a log with that status. */
  lemma {:induction false} CloseKeepsLogs(db: Db, t: TxId, log: PaymentLog, after: Db)
    requires LogsAgree(db) && t < |db.txs| && log.tx == t && !HasLog(db.logs, t)
    requires after.logs == db.logs + [log]
    requires after.txs == db.txs[t := db.txs[t].(status := log.status)] && Closed(after.txs[t])
    ensures LogsAgree(after)
  {
    assert after.logs[|db.logs|].tx == t;
    forall u | 0 <= u < |after.txs| && Closed(after.txs[u])
      ensures HasLog(after.logs, u)
    {
      if u != t {
        var i :| 0 <= i < |db.logs| && db.logs[i].tx == u;
        assert after.logs[i].tx == u;
      }
    }
  }

  lemma {:induction false} CloseKeepsRows(db: Db, after: Db, ctx: TransactionContext, event: EventId, v: Verdict)
    requires OwnersConsistent(db) && TxsWellFormed(db) && UniqueKeys(db) && LedgerWellFormed(db)
    requires ClosedBy(db, after, ctx, event, v)
    ensures OwnersConsistent(after) && TxsWellFormed(after) && UniqueKeys(after) && LedgerWellFormed(after)
  {
    assert TxWellFormed(db.txs[ctx.id], db.wallets.Keys);
  }

  lemma {:induction false} CloseKeepsOutbox(db: Db, after: Db, ctx: TransactionContext, event: EventId, v: Verdict)
    requires OutboxAgrees(db) && ClosedBy(db, after, ctx, event, v)
    ensures OutboxAgrees(after)
  {
  }

  lemma {:induction false} CloseKeepsCurrencies(db: Db, after: Db, ctx: TransactionContext, event: EventId, v: Verdict)
    requires CurrenciesAgree(db) && ClosedBy(db, after, ctx, event, v)
    ensures CurrenciesAgree(after)
  {
    assert InCurrency(db.wallets, db.txs[ctx.id].sender, ctx.currency);
    assert InCurrency(db.wallets, db.txs[ctx.id].receiver, ctx.currency);
  }

  lemma {:induction false} CloseKeepsCustomers(db: Db, after: Db, ctx: TransactionContext, event: EventId, v: Verdict)
    requires UniqueCustomers(db) && ClosedBy(db, after, ctx, event, v)
    ensures UniqueCustomers(after)
  {
  }

  lemma {:induction false} ClosedKeepsInv(db: Db, after: Db, ctx: TransactionContext, event: EventId, v: Verdict)
    requires Inv(db) && ClosedBy(db, after, ctx, event, v)
    ensures Inv(after)
  {
    UnloggedIsInitiated(db, ctx.id);
    CloseKeepsRows(db, after, ctx, event, v);
    CloseKeepsOutbox(db, after, ctx, event, v);
    CloseKeepsCurrencies(db, after, ctx, event, v);
    CloseKeepsCustomers(db, after, ctx, event, v);
    CloseKeepsLogs(db, ctx.id, PaymentLog(ctx.id, ctx.provider.value, FinalStatus(v.Settled?)), after);
    forall w | w in after.wallets
      ensures WalletSound(after, w)
    {
      assert WalletSound(db, w);
      SettlementKeepsCache(db, after, ctx, event, v, w);
      SettlementKeepsReconciliation(db, after, ctx, event, v, w);
      SettlementKeepsRange(db, after, ctx, event, v, w);
    }
  }

  lemma {:induction false} SettlementKeepsInv(db: Db, ctx: TransactionContext, event: EventId, v: Verdict)
    requires Inv(db) && CallableSettlement(db, ctx, event)
    requires SettlementBody(db, ctx, event, v).Ok?
    ensures Inv(SettlementBody(db, ctx, event, v).value)
  {
    SettlementCloses(db, ctx, event, v);
    ClosedKeepsInv(db, SettlementBody(db, ctx, event, v).value, ctx, event, v);
  }

  lemma {:induction false} EventUpdateKeepsInv(db: Db, e: EventId, event: OutboxEvent)
    requires Inv(db) && e < |db.outbox|
    requires event == db.outbox[e].(delivered := event.delivered, retryCount := event.retryCount)
    requires db.outbox[e].delivered ==> event.delivered
    ensures Inv(db.(outbox := db.outbox[e := event]))
  {
    var after := db.(outbox := db.outbox[e := event]);
    EventUpdateKeepsOutbox(db, e, event);
    OutsideOutbox(db, after);
  }

  lemma {:induction false} EventUpdateKeepsOutbox(db: Db, e: EventId, event: OutboxEvent)
    requires OutboxAgrees(db) && e < |db.outbox|
    requires event == db.outbox[e].(delivered := event.delivered, retryCount := event.retryCount)
    requires db.outbox[e].delivered ==> event.delivered
    ensures OutboxAgrees(db.(outbox := db.outbox[e := event]))
  {
  }

  lemma {:induction false} OutsideOutbox(db: Db, after: Db)
    requires Inv(db) && after == db.(outbox := after.outbox) && OutboxAgrees(after)
    ensures Inv(after)
  {
    forall w | w in after.wallets
      ensures WalletSound(after, w)
    {
      assert WalletSound(db, w);
    }
  }

  /** Every operation, committed or rolled back, keeps the whole invariant. */
  lemma {:induction false} StepKeepsInv(db: Db, op: Operation)
    requires Inv(db) && Callable(db, op)
    ensures Inv(After(db, op))
  {
    if Body(db, op).Ok? {
      match op
      case Deposit(u, k, a, c) => DepositKeepsInv(db, u, k, a, c, INTERNAL);
      case ConfirmDeposit(u, k, a, c, p) => DepositKeepsInv(db, u, k, a, c, p);
      case Withdraw(u, k, a, c) => WithdrawKeepsInv(db, u, k, a, c, INTERNAL, true);
      case CreatePayout(u, k, a, c, p, linked) => WithdrawKeepsInv(db, u, k, a, c, p, linked);
      case Transfer(u, v, k, a, c) => TransferKeepsInv(db, u, v, k, a, c);
      case Settle(ctx, e, c) => SettlementKeepsInv(db, ctx, e, Settled(c));
      case Fail(ctx, e) => SettlementKeepsInv(db, ctx, e, Failed);
      case MarkDelivered(e) => EventUpdateKeepsInv(db, e, After(db, op).outbox[e]);
      case IncrementRetry(e) => EventUpdateKeepsInv(db, e, After(db, op).outbox[e]);
    }
  }
}
