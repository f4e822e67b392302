/**
 * Every operation as the sequence of statements its database transaction issues. A transaction works on its own view:
 * the committed tables with its buffered row writes on top.
 */
module Programs {
  import opened Schema
  import opened Operations

  /** What a statement can lock, in the order in which every operation locks. */
  datatype Resource =
    | WalletRow(wallet: WalletId)
    | KeyIndex(key: IdempotencyKey)
    | TxRow(tx: TxId)
    | LogIndex(log: TxId)
    | OutboxRow(event: EventId)
    | CustomerIndex(customer: CustomerId)

  datatype Bucket = Available | Locked | Pending

  datatype Statement =
    | Acquire(r: Resource)
    | Refuse(error: Error)
    | AssertActive(wallet: WalletId)
    | AssertCurrency(wallet: WalletId, currency: Currency)
    | AssertFunds(wallet: WalletId, amount: Amount)
    | UpdateWallet(wallet: WalletId, available: int, locked: int, pending: int)
    | RequireDestination(linked: bool)
    | InsertTransaction(row: Transaction)
    | InsertLedger(wallet: WalletId, of: Option<TxId>, direction: EntryDirection, amount: Amount, currency: Currency,
                   bucket: Bucket)
    | InsertEvent(eventType: EventType, user: Option<UserId>)
    | UpdateStatus(tx: TxId, status: TransactionStatus)
    | InsertLog(tx: TxId, provider: Option<Provider>, status: TransactionStatus)
    | UpdateDelivered(event: EventId)
    | UpdateRetry(event: EventId)
    | KeepCustomer(holder: UserId, customer: CustomerId)

  /** A buffered write. A ledger entry or event without a transaction id belongs to the row the same buffer inserts. */
  datatype RowWrite =
    | PutWallet(wallet: WalletId, row: Wallet)
    | PutTransaction(tx: Transaction)
    | PutStatus(id: TxId, status: TransactionStatus)
    | PutLedger(owner: WalletId, of: Option<TxId>, direction: EntryDirection, amount: Amount, currency: Currency,
                balanceAfter: int)
    | PutLog(log: PaymentLog)
    | PutEvent(eventType: EventType, user: Option<UserId>)
    | PutDelivered(event: EventId)
    | PutRetry(event: EventId)
    | PutCustomer(holder: UserId, customer: CustomerId)

  function LastTx(db: Db): TxId {
    if |db.txs| == 0 then 0 else |db.txs| - 1
  }

  function Write(db: Db, x: RowWrite): Db {
    match x
    case PutWallet(w, row) => db.(wallets := db.wallets[w := row])
    case PutTransaction(t) => db.(txs := db.txs + [t])
    case PutStatus(t, s) => if t < |db.txs| then db.(txs := db.txs[t := db.txs[t].(status := s)]) else db
    case PutLedger(w, t, d, a, c, b) =>
      db.(ledger := db.ledger + [LedgerEntry(w, if t.Some? then t.value else LastTx(db), d, a, c, b)])
    case PutLog(log) => db.(logs := db.logs + [log])
    case PutEvent(ty, u) => db.(outbox := db.outbox + [OutboxEvent(LastTx(db), ty, u, false, 0)])
    case PutDelivered(e) =>
      if e < |db.outbox| then db.(outbox := db.outbox[e := db.outbox[e].(delivered := true)]) else db
    case PutRetry(e) =>
      if e < |db.outbox| then db.(outbox := db.outbox[e := db.outbox[e].(retryCount := db.outbox[e].retryCount + 1)])
      else db
    case PutCustomer(u, c) => db.(customers := db.customers[u := c])
  }

  /** Commit: the buffered writes, in order. */
  function Apply(db: Db, buffer: seq<RowWrite>): Db {
    if |buffer| == 0 then db else Write(Apply(db, buffer[..|buffer| - 1]), buffer[|buffer| - 1])
  }

  function Read(w: Wallet, b: Bucket): int {
    match b
    case Available => w.available
    case Locked => w.locked
    case Pending => w.pending
  }

  /** One statement against the transaction's view: an exception, nothing to write, or one row write. */
  function Exec(view: Db, s: Statement): Result<Option<RowWrite>> {
    match s
    case Acquire(_) => Ok(None)
    case Refuse(e) => Err(e)
    case AssertActive(w) =>
      if w !in view.wallets then Err(RecordNotFound)
      else if view.wallets[w].status != ACTIVE then Err(WalletNotActive) else Ok(None)
    case AssertCurrency(w, c) =>
      if w !in view.wallets then Err(RecordNotFound)
      else if view.wallets[w].currency != c then Err(CurrencyMismatch) else Ok(None)
    case AssertFunds(w, a) =>
      if w !in view.wallets then Err(RecordNotFound)
      else if view.wallets[w].available < a then Err(InsufficientBalance) else Ok(None)
    case UpdateWallet(w, a, l, p) =>
      if w !in view.wallets then Err(RecordNotFound)
      else if !WalletFits(Shift(view.wallets[w], a, l, p)) then Err(NumericOverflow)
      else Ok(Some(PutWallet(w, Shift(view.wallets[w], a, l, p))))
    case RequireDestination(linked) => if linked then Ok(None) else Err(PayoutDestinationMissing)
    case InsertTransaction(row) =>
      if KeyTaken(view.txs, row.key) then Err(UniqueViolation) else Ok(Some(PutTransaction(row)))
    case InsertLedger(w, t, d, a, c, b) =>
      if w !in view.wallets then Err(RecordNotFound)
      else Ok(Some(PutLedger(w, t, d, a, c, Read(view.wallets[w], b))))
    case InsertEvent(ty, u) => Ok(Some(PutEvent(ty, u)))
    case UpdateStatus(t, st) => if t < |view.txs| then Ok(Some(PutStatus(t, st))) else Err(RecordNotFound)
    case InsertLog(t, p, st) =>
      if p.None? then Err(InvalidArgument)
      else if HasLog(view.logs, t) then Err(UniqueViolation)
      else Ok(Some(PutLog(PaymentLog(t, p.value, st))))
    case UpdateDelivered(e) => if e < |view.outbox| then Ok(Some(PutDelivered(e))) else Err(RecordNotFound)
    case UpdateRetry(e) => if e < |view.outbox| then Ok(Some(PutRetry(e))) else Err(RecordNotFound)
    case KeepCustomer(u, c) =>
      if u in view.customers && view.customers[u] == c then Ok(None)
      else if u !in view.owners then Err(RecordNotFound)
      else if HeldByAnother(view, u, c) then Err(UniqueViolation)
      else Ok(Some(PutCustomer(u, c)))
  }

  type Program = seq<Statement>

  /** The buffer after the first n statements, or the exception that ended them. */
  function Run(db: Db, p: Program, n: nat): Result<seq<RowWrite>>
    requires n <= |p|
  {
    if n == 0 then Ok([])
    else
      match Run(db, p, n - 1)
      case Err(e) => Err(e)
      case Ok(buffer) =>
        match Exec(Apply(db, buffer), p[n - 1])
        case Err(e) => Err(e)
        case Ok(None) => Ok(buffer)
        case Ok(Some(x)) => Ok(buffer + [x])
  }

  /** Running statements i.. undisturbed from a view. */
  function Interpret(view: Db, p: Program, i: nat): Result<Db>
    requires i <= |p|
    decreases |p| - i
  {
    if i == |p| then Ok(view)
    else
      match Exec(view, p[i])
      case Err(e) => Err(e)
      case Ok(None) => Interpret(view, p, i + 1)
      case Ok(Some(x)) => Interpret(Write(view, x), p, i + 1)
  }

  lemma {:induction false} ApplyAppend(db: Db, buffer: seq<RowWrite>, x: RowWrite)
    ensures Apply(db, buffer + [x]) == Write(Apply(db, buffer), x)
  {
    assert (buffer + [x])[..|buffer|] == buffer;
  }

  /** One statement more, and what it adds to the buffer. */
  lemma {:induction false} OneStatementMore(db: Db, p: Program, pc: nat, buffer: seq<RowWrite>)
    requires pc < |p| && Run(db, p, pc) == Ok(buffer)
    ensures match Exec(Apply(db, buffer), p[pc])
            case Err(e) => Run(db, p, pc + 1) == Err(e)
            case Ok(None) => Run(db, p, pc + 1) == Ok(buffer)
            case Ok(Some(x)) => Run(db, p, pc + 1) == Ok(buffer + [x])
    ensures p[pc].Acquire? ==> Exec(Apply(db, buffer), p[pc]) == Ok(None)
  {
  }

  lemma {:induction false} StatementUndisturbed(db: Db, p: Program, pc: nat, buffer: seq<RowWrite>)
    requires pc < |p|
    ensures match Exec(Apply(db, buffer), p[pc])
            case Err(e) => Interpret(Apply(db, buffer), p, pc) == Err(e)
            case Ok(None) => Interpret(Apply(db, buffer), p, pc) == Interpret(Apply(db, buffer), p, pc + 1)
            case Ok(Some(x)) => Interpret(Apply(db, buffer), p, pc) == Interpret(Apply(db, buffer + [x]), p, pc + 1)
  {
    var r := Exec(Apply(db, buffer), p[pc]);
    if r.Ok? && r.value.Some? {
      ApplyAppend(db, buffer, r.value.value);
    }
  }

  lemma {:induction false} ErrorsStay(db: Db, p: Program, n: nat)
    requires n < |p| && Run(db, p, n).Err?
    ensures Run(db, p, n + 1) == Run(db, p, n)
  {
  }

  /** `whole` is what the program comes to; its first n statements, buffered, leave just the rest of it to do. */
  predicate SameSoFar(whole: Result<Db>, db: Db, p: Program, n: nat)
    requires n <= |p|
  {
    match Run(db, p, n)
    case Ok(buffer) => whole == Interpret(Apply(db, buffer), p, n)
    case Err(e) => whole == Err(e)
  }

  lemma {:induction false} SameOneFurther(whole: Result<Db>, db: Db, p: Program, n: nat)
    requires n < |p| && SameSoFar(whole, db, p, n)
    ensures SameSoFar(whole, db, p, n + 1)
  {
    match Run(db, p, n) {
      case Err(_) => ErrorsStay(db, p, n);
      case Ok(buffer) =>
        OneStatementMore(db, p, n, buffer);
        StatementUndisturbed(db, p, n, buffer);
    }
  }

  lemma {:induction false} SameThroughout(whole: Result<Db>, db: Db, p: Program, n: nat)
    requires n <= |p| && whole == Interpret(db, p, 0)
    ensures SameSoFar(whole, db, p, n)
  {
    if n == 0 {
      assert Run(db, p, 0) == Ok([]) && Apply(db, []) == db;
    } else {
      SameThroughout(whole, db, p, n - 1);
      SameOneFurther(whole, db, p, n - 1);
    }
  }

  /** Buffering writes and applying them at commit is the same as writing at once, when nobody interferes. */
  lemma {:induction false} BufferedRunIsUndisturbedRun(db: Db, p: Program, n: nat)
    requires n <= |p|
    ensures match Run(db, p, n)
            case Ok(buffer) => Interpret(db, p, 0) == Interpret(Apply(db, buffer), p, n)
            case Err(e) => Interpret(db, p, 0) == Err(e)
  {
    SameThroughout(Interpret(db, p, 0), db, p, n);
  }

  // ---- the programs

  /** lockWallet, assertActive, assertCurrencyMatch. */
  function LockAndCheck(id: WalletId, currency: Currency): Program {
    [Acquire(WalletRow(id)), AssertActive(id), AssertCurrency(id, currency)]
  }

  /** The inserts that end every initiation; a second holder of the key waits for the first to commit. */
  function OpenProgram(row: Transaction, ledger: Program, eventType: EventType, user: Option<UserId>): Program {
    [Acquire(KeyIndex(row.key)), InsertTransaction(row)] + ledger + [InsertEvent(eventType, user)]
  }

  function DepositProgram(id: WalletId, user: UserId, key: IdempotencyKey, amount: Amount, currency: Currency,
                          provider: Provider): Program
  {
    LockAndCheck(id, currency)
    + [UpdateWallet(id, 0, 0, amount)]
    + OpenProgram(Transaction(key, DEPOSIT, INITIATED, amount, currency, None, Some(id), Some(provider)),
                  if provider == INTERNAL then [InsertLedger(id, None, CREDIT, amount, currency, Pending)] else [],
                  DEPOSIT_INITIATED, Some(user))
  }

  function WithdrawProgram(id: WalletId, user: UserId, key: IdempotencyKey, amount: Amount, currency: Currency,
                           provider: Provider, linked: bool): Program
  {
    LockAndCheck(id, currency)
    + [AssertFunds(id, amount), UpdateWallet(id, 0 - amount, amount, 0), RequireDestination(linked)]
    + OpenProgram(Transaction(key, WITHDRAWAL, INITIATED, amount, currency, Some(id), None, Some(provider)),
                  if provider == INTERNAL then [InsertLedger(id, None, DEBIT, amount, currency, Locked)] else [],
                  WITHDRAWAL_INITIATED, Some(user))
  }

  /** The lower wallet id is locked first. */
  function TransferLocks(s: WalletId, r: WalletId): Program {
    [Acquire(WalletRow(if s < r then s else r)), Acquire(WalletRow(if s < r then r else s))]
  }

  function TransferChecks(s: WalletId, r: WalletId, currency: Currency): Program {
    [AssertActive(s), AssertActive(r), AssertCurrency(s, currency), AssertCurrency(r, currency)]
  }

  function TransferProgram(s: WalletId, r: WalletId, key: IdempotencyKey, amount: Amount, currency: Currency): Program {
    TransferLocks(s, r)
    + TransferChecks(s, r, currency)
    + [AssertFunds(s, amount), UpdateWallet(s, 0 - amount, 0, 0), UpdateWallet(r, amount, 0, 0)]
    + OpenProgram(Transaction(key, TRANSFER, SETTLED, amount, currency, Some(s), Some(r), Some(INTERNAL)),
                  [InsertLedger(s, None, DEBIT, amount, currency, Available),
                   InsertLedger(r, None, CREDIT, amount, currency, Available)],
                  TRANSFER_SETTLED, None)
  }

  function SettlementUpdate(id: WalletId, ctx: TransactionContext, settled: bool): Statement {
    var a := ctx.amount;
    if ctx.kind == DEPOSIT then UpdateWallet(id, if settled then a else 0, 0, 0 - a)
    else UpdateWallet(id, if settled then 0 else a, 0 - a, 0)
  }

  function SettlementLedger(id: WalletId, ctx: TransactionContext, settled: bool): Program {
    if !settled then []
    else if ctx.kind == DEPOSIT then [InsertLedger(id, Some(ctx.id), CREDIT, ctx.amount, ctx.currency, Available)]
    else [InsertLedger(id, Some(ctx.id), DEBIT, ctx.amount, ctx.currency, Locked)]
  }

  /**
   * The last statement of a settlement that brings a customer id; the id's place in the unique index is locked first.
   */
  function CustomerProgram(ctx: TransactionContext, v: Verdict): Program {
    match NewCustomer(ctx, v)
    case None => []
    case Some(c) => [Acquire(CustomerIndex(c)), KeepCustomer(ctx.user, c)]
  }

  function SettlementProgram(id: WalletId, ctx: TransactionContext, event: EventId, v: Verdict): Program {
    var status := if v.Settled? then SETTLED else FAILED;
    [Acquire(WalletRow(id)), SettlementUpdate(id, ctx, v.Settled?), Acquire(TxRow(ctx.id)),
      UpdateStatus(ctx.id, status)]
    + SettlementLedger(id, ctx, v.Settled?)
    + [Acquire(LogIndex(ctx.id)), InsertLog(ctx.id, ctx.provider, status), Acquire(OutboxRow(event)),
      UpdateDelivered(event)]
    + CustomerProgram(ctx, v)
  }

  function SettleOrFailProgram(ctx: TransactionContext, event: EventId, v: Verdict): Program {
    if ctx.kind == TRANSFER then [Refuse(UnsupportedType)]
    else if SettlementWallet(ctx).None? then [Refuse(InvalidArgument)]
    else SettlementProgram(SettlementWallet(ctx).value, ctx, event, v)
  }

  /** `owners` is only ever read: users' wallets are created with the user and their ids never change. */
  function ProgramOf(owners: map<UserId, WalletId>, op: Operation): Program {
    match op
    case Deposit(u, k, a, c) =>
      if u in owners then DepositProgram(owners[u], u, k, a, c, INTERNAL) else [Refuse(WalletNotFound)]
    case ConfirmDeposit(u, k, a, c, p) =>
      if u in owners then DepositProgram(owners[u], u, k, a, c, p) else [Refuse(WalletNotFound)]
    case Withdraw(u, k, a, c) =>
      if u in owners then WithdrawProgram(owners[u], u, k, a, c, INTERNAL, true) else [Refuse(WalletNotFound)]
    case CreatePayout(u, k, a, c, p, linked) =>
      if u in owners then WithdrawProgram(owners[u], u, k, a, c, p, linked) else [Refuse(WalletNotFound)]
    case Transfer(u, v, k, a, c) =>
      if u == v then [Refuse(SelfTransfer)]
      else if u in owners && v in owners then TransferProgram(owners[u], owners[v], k, a, c)
      else [Refuse(WalletNotFound)]
    case Settle(ctx, e, c) => SettleOrFailProgram(ctx, e, Settled(c))
    case Fail(ctx, e) => SettleOrFailProgram(ctx, e, Failed)
    case MarkDelivered(e) => [Acquire(OutboxRow(e)), UpdateDelivered(e)]
    case IncrementRetry(e) => [Acquire(OutboxRow(e)), UpdateRetry(e)]
  }
}
