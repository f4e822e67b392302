/** What every service operation does to the database, as one atomic step. */
module Operations {
  import opened Schema

  datatype Operation =
    | Deposit(user: UserId, key: IdempotencyKey, amount: Amount, currency: Currency)
    | Withdraw(user: UserId, key: IdempotencyKey, amount: Amount, currency: Currency)
    | Transfer(user: UserId, recipient: UserId, key: IdempotencyKey, amount: Amount, currency: Currency)
    | ConfirmDeposit(user: UserId, key: IdempotencyKey, amount: Amount, currency: Currency, provider: Provider)
    | CreatePayout(user: UserId, key: IdempotencyKey, amount: Amount, currency: Currency, provider: Provider,
                   destinationLinked: bool)
    | Settle(ctx: TransactionContext, event: EventId, customer: Option<CustomerId>)
    | Fail(ctx: TransactionContext, event: EventId)
    | MarkDelivered(event: EventId)
    | IncrementRetry(event: EventId)

  datatype Outcome = Committed | Replayed(tx: TxId) | Rejected(error: Error)

  /** The request carries an idempotency key (the other operations are internal calls). */
  predicate HasKey(op: Operation) {
    op.Deposit? || op.Withdraw? || op.Transfer? || op.ConfirmDeposit? || op.CreatePayout?
  }

  // ---- building blocks shared by the closed forms

  function FindWallet(db: Db, user: UserId): Result<WalletId> {
    if user in db.owners && db.owners[user] in db.wallets then Ok(db.owners[user]) else Err(WalletNotFound)
  }

  function CheckWallet(w: Wallet, currency: Currency): Option<Error> {
    if w.status != ACTIVE then Some(WalletNotActive)
    else if w.currency != currency then Some(CurrencyMismatch)
    else None
  }

  /** Inserts the transaction row, its ledger entries and its outbox event; the key index is unique. */
  function Open(db: Db, row: Transaction, entries: seq<LedgerEntry>, eventType: EventType, user: Option<UserId>)
    : Result<Db>
  {
    if KeyTaken(db.txs, row.key) then Err(UniqueViolation)
    else Ok(db.(
      txs := db.txs + [row],
      ledger := db.ledger + entries,
      outbox := db.outbox + [OutboxEvent(|db.txs|, eventType, user, false, 0)]))
  }

  /** Stamps the final status, then writes ledger entries, payment log and delivery mark; the log index is unique. */
  function Close(db: Db, ctx: TransactionContext, event: EventId, status: TransactionStatus,
                 entries: seq<LedgerEntry>): Result<Db>
  {
    if |db.txs| <= ctx.id then Err(RecordNotFound)
    else if ctx.provider.None? then Err(InvalidArgument)
    else if HasLog(db.logs, ctx.id) then Err(UniqueViolation)
    else if |db.outbox| <= event then Err(RecordNotFound)
    else Ok(db.(
      txs := db.txs[ctx.id := db.txs[ctx.id].(status := status)],
      ledger := db.ledger + entries,
      logs := db.logs + [PaymentLog(ctx.id, ctx.provider.value, status)],
      outbox := db.outbox[event := db.outbox[event].(delivered := true)]))
  }

  // ---- the operations

  /** deposit (provider INTERNAL, ledger entry at once) and confirmDeposit (no ledger entry yet). */
  function DepositBody(db: Db, user: UserId, key: IdempotencyKey, amount: Amount, currency: Currency,
                       provider: Provider): Result<Db>
  {
    match FindWallet(db, user)
    case Err(e) => Err(e)
    case Ok(id) =>
      var w := db.wallets[id];
      var moved := Shift(w, 0, 0, amount);
      if CheckWallet(w, currency).Some? then Err(CheckWallet(w, currency).value)
      else if !WalletFits(moved) then Err(NumericOverflow)
      else
        Open(db.(wallets := db.wallets[id := moved]),
             Transaction(key, DEPOSIT, INITIATED, amount, currency, None, Some(id), Some(provider)),
             if provider == INTERNAL
             then [LedgerEntry(id, |db.txs|, CREDIT, amount, currency, moved.pending)] else [],
             DEPOSIT_INITIATED, Some(user))
  }

  /** withdraw (provider INTERNAL, ledger entry at once) and createPayout (no ledger entry yet). */
  function WithdrawBody(db: Db, user: UserId, key: IdempotencyKey, amount: Amount, currency: Currency,
                        provider: Provider, destinationLinked: bool): Result<Db>
  {
    match FindWallet(db, user)
    case Err(e) => Err(e)
    case Ok(id) =>
      var w := db.wallets[id];
      var moved := Shift(w, 0 - amount, amount, 0);
      if CheckWallet(w, currency).Some? then Err(CheckWallet(w, currency).value)
      else if w.available < amount then Err(InsufficientBalance)
      else if !WalletFits(moved) then Err(NumericOverflow)
      else if !destinationLinked then Err(PayoutDestinationMissing)
      else
        Open(db.(wallets := db.wallets[id := moved]),
             Transaction(key, WITHDRAWAL, INITIATED, amount, currency, Some(id), None, Some(provider)),
             if provider == INTERNAL
             then [LedgerEntry(id, |db.txs|, DEBIT, amount, currency, moved.locked)] else [],
             WITHDRAWAL_INITIATED, Some(user))
  }

  function TransferBody(db: Db, user: UserId, recipient: UserId, key: IdempotencyKey, amount: Amount,
                        currency: Currency): Result<Db>
  {
    if user == recipient then Err(SelfTransfer)
    else if FindWallet(db, user).Err? || FindWallet(db, recipient).Err? then Err(WalletNotFound)
    else
      var s, r := FindWallet(db, user).value, FindWallet(db, recipient).value;
      var from := db.wallets[s];
      var to := db.wallets[r];
      var debited := Shift(from, 0 - amount, 0, 0);
      var midway := db.wallets[s := debited];
      var credited := Shift(midway[r], amount, 0, 0);
      if from.status != ACTIVE || to.status != ACTIVE then Err(WalletNotActive)
      else if from.currency != currency || to.currency != currency then Err(CurrencyMismatch)
      else if from.available < amount then Err(InsufficientBalance)
      else if !WalletFits(debited) || !WalletFits(credited) then Err(NumericOverflow)
      else
        Open(db.(wallets := midway[r := credited]),
             Transaction(key, TRANSFER, SETTLED, amount, currency, Some(s), Some(r), Some(INTERNAL)),
             [LedgerEntry(s, |db.txs|, DEBIT, amount, currency, debited.available),
              LedgerEntry(r, |db.txs|, CREDIT, amount, currency, credited.available)],
             TRANSFER_SETTLED, None)
  }

  /** The wallet a settlement call touches. */
  function SettlementWallet(ctx: TransactionContext): Option<WalletId> {
    if ctx.kind == DEPOSIT then ctx.receiver else ctx.sender
  }

  /** How the wallet's (available, locked, pending) move when `ctx` settles or fails. */
  function SettlementShift(w: Wallet, ctx: TransactionContext, settled: bool): Wallet {
    var a := ctx.amount;
    if ctx.kind == DEPOSIT
    then Shift(w, if settled then a else 0, 0, 0 - a)
    else Shift(w, if settled then 0 else a, 0 - a, 0)
  }

  function SettlementEntries(moved: Wallet, id: WalletId, ctx: TransactionContext, settled: bool): seq<LedgerEntry> {
    if !settled then []
    else if ctx.kind == DEPOSIT then [LedgerEntry(id, ctx.id, CREDIT, ctx.amount, ctx.currency, moved.available)]
    else [LedgerEntry(id, ctx.id, DEBIT, ctx.amount, ctx.currency, moved.locked)]
  }

  /** The customer id a settlement writes to the user: a PayPal deposit's, if the provider returned one. */
  function NewCustomer(ctx: TransactionContext, v: Verdict): Option<CustomerId> {
    if v.Settled? && ctx.kind == DEPOSIT && ctx.provider == Some(PAYPAL) then v.customer else None
  }

  /** upsertBraintreeCustomerId: nothing to do if the user has it already; the index is unique. */
  function SaveCustomer(db: Db, user: UserId, c: CustomerId): Result<Db> {
    if user in db.customers && db.customers[user] == c then Ok(db)
    else if user !in db.owners then Err(RecordNotFound)
    else if HeldByAnother(db, user, c) then Err(UniqueViolation)
    else Ok(db.(customers := db.customers[user := c]))
  }

  /** settle and fail: neither reads the current status or guards the balances. */
  function SettlementBody(db: Db, ctx: TransactionContext, event: EventId, v: Verdict): Result<Db> {
    if ctx.kind == TRANSFER then Err(UnsupportedType)
    else if SettlementWallet(ctx).None? then Err(InvalidArgument)
    else
      var id := SettlementWallet(ctx).value;
      if id !in db.wallets then Err(RecordNotFound)
      else
        var moved := SettlementShift(db.wallets[id], ctx, v.Settled?);
        if !WalletFits(moved) then Err(NumericOverflow)
        else
          match Close(db.(wallets := db.wallets[id := moved]), ctx, event,
                      if v.Settled? then SETTLED else FAILED, SettlementEntries(moved, id, ctx, v.Settled?))
          case Err(e) => Err(e)
          case Ok(closed) =>
            match NewCustomer(ctx, v)
            case None => Ok(closed)
            case Some(c) => SaveCustomer(closed, ctx.user, c)
  }

  /** The database transaction of an operation, without its idempotency pre-check. */
  function Body(db: Db, op: Operation): Result<Db> {
    match op
    case Deposit(u, k, a, c) => DepositBody(db, u, k, a, c, INTERNAL)
    case Withdraw(u, k, a, c) => WithdrawBody(db, u, k, a, c, INTERNAL, true)
    case Transfer(u, v, k, a, c) => TransferBody(db, u, v, k, a, c)
    case ConfirmDeposit(u, k, a, c, p) => DepositBody(db, u, k, a, c, p)
    case CreatePayout(u, k, a, c, p, linked) => WithdrawBody(db, u, k, a, c, p, linked)
    case Settle(ctx, e, c) => SettlementBody(db, ctx, e, Settled(c))
    case Fail(ctx, e) => SettlementBody(db, ctx, e, Failed)
    case MarkDelivered(e) =>
      if |db.outbox| <= e then Err(RecordNotFound)
      else Ok(db.(outbox := db.outbox[e := db.outbox[e].(delivered := true)]))
    case IncrementRetry(e) =>
      if |db.outbox| <= e then Err(RecordNotFound)
      else Ok(db.(outbox := db.outbox[e := db.outbox[e].(retryCount := db.outbox[e].retryCount + 1)]))
  }

  /** The state after an operation's transaction: committed, or rolled back. */
  function After(db: Db, op: Operation): Db {
    if Body(db, op).Ok? then Body(db, op).value else db
  }

  /** The whole call, pre-check included. A self-transfer is refused before the pre-check. */
  function Perform(db: Db, op: Operation): (Db, Outcome) {
    if op.Transfer? && op.user == op.recipient then (db, Rejected(SelfTransfer))
    else if HasKey(op) && FindByKey(db.txs, op.key).Some?
    then (db, Replayed(FindByKey(db.txs, op.key).value))
    else
      match Body(db, op)
      case Ok(after) => (after, Committed)
      case Err(e) => (db, Rejected(e))
  }
}
