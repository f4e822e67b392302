/** The tables of prisma/schema.prisma as values: rows, enumerations and the database. */
module Schema {
  datatype Option<+T> = None | Some(value: T)
  datatype Result<+T> = Ok(value: T) | Err(error: Error)

  /** What a service call can throw, or the database can raise. */
  datatype Error =
    | WalletNotFound | WalletNotActive | CurrencyMismatch | InsufficientBalance
    | SelfTransfer | PayoutDestinationMissing | UnsupportedType
    | RecordNotFound | UniqueViolation | NumericOverflow | InvalidArgument | Interrupted

  type WalletId = nat
  type UserId = nat
  type IdempotencyKey = nat
  type TxId = nat
  type EventId = nat
  type CustomerId = nat

  /** Money in units of 10^-4, as validated by the request DTOs (positive, at most four decimals). */
  type Amount = x: int | 0 < x witness 1

  datatype AccountStatus = ACTIVE | FROZEN | SUSPENDED | CLOSED
  datatype Currency = USD | EUR | GBP
  datatype TransactionType = DEPOSIT | WITHDRAWAL | TRANSFER
  datatype TransactionStatus = INITIATED | AUTHORIZED | PROCESSING | SETTLED | FAILED | REVERSED
  datatype EntryDirection = CREDIT | DEBIT
  datatype Provider = STRIPE | PAYPAL | INTERNAL
  datatype EventType = DEPOSIT_INITIATED | WITHDRAWAL_INITIATED | TRANSFER_SETTLED

  datatype Wallet = Wallet(
    userId: UserId, currency: Currency, status: AccountStatus,
    available: int, locked: int, pending: int)

  datatype Transaction = Transaction(
    key: IdempotencyKey, kind: TransactionType, status: TransactionStatus,
    amount: Amount, currency: Currency,
    sender: Option<WalletId>, receiver: Option<WalletId>, provider: Option<Provider>)

  datatype LedgerEntry = LedgerEntry(
    wallet: WalletId, tx: TxId, direction: EntryDirection,
    amount: Amount, currency: Currency, balanceAfter: int)

  datatype PaymentLog = PaymentLog(tx: TxId, provider: Provider, status: TransactionStatus)

  datatype OutboxEvent = OutboxEvent(
    tx: TxId, eventType: EventType, payloadUser: Option<UserId>,
    delivered: bool, retryCount: nat)

  /**
   * `owners` is the unique index Wallet.userId, `customers` the unique column User.braintreeCustomerId where it is set.
   * A row's id is its position in its table.
   */
  datatype Db = Db(
    wallets: map<WalletId, Wallet>, owners: map<UserId, WalletId>, customers: map<UserId, CustomerId>,
    txs: seq<Transaction>, ledger: seq<LedgerEntry>,
    logs: seq<PaymentLog>, outbox: seq<OutboxEvent>)

  /** The row a settlement call carries and its user; everything but `status` is immutable, `status` may be stale. */
  datatype TransactionContext = TransactionContext(
    id: TxId, user: UserId, kind: TransactionType, status: TransactionStatus,
    amount: Amount, currency: Currency, provider: Option<Provider>,
    sender: Option<WalletId>, receiver: Option<WalletId>)

  /** What settle or fail is called for; a PayPal deposit may come with a Braintree customer id to keep. */
  datatype Verdict = Settled(customer: Option<CustomerId>) | Failed

  /** Largest magnitude of a Decimal(18, 4) column, in units of 10^-4. */
  const MAX_UNITS: int := 999_999_999_999_999_999

  predicate Fits(x: int) {
    -MAX_UNITS <= x <= MAX_UNITS
  }

  predicate WalletFits(w: Wallet) {
    Fits(w.available) && Fits(w.locked) && Fits(w.pending)
  }

  /** UPDATE "Wallet" SET each bucket = bucket + delta. */
  function Shift(w: Wallet, available: int, locked: int, pending: int): Wallet {
    w.(available := w.available + available, locked := w.locked + locked, pending := w.pending + pending)
  }

  predicate KeyTaken(txs: seq<Transaction>, k: IdempotencyKey) {
    exists i | 0 <= i < |txs| :: txs[i].key == k
  }

  predicate HasLog(logs: seq<PaymentLog>, t: TxId) {
    exists i | 0 <= i < |logs| :: logs[i].tx == t
  }

  predicate HeldByAnother(db: Db, user: UserId, c: CustomerId) {
    exists u | u in db.customers && u != user :: db.customers[u] == c
  }

  /** findUnique by idempotency key. */
  function FindByKey(txs: seq<Transaction>, k: IdempotencyKey): (r: Option<TxId>)
    ensures r.Some? <==> KeyTaken(txs, k)
    ensures r.Some? ==> r.value < |txs| && txs[r.value].key == k
  {
    if |txs| == 0 then None
    else if txs[|txs| - 1].key == k then Some(|txs| - 1)
    else
      var r := FindByKey(txs[..|txs| - 1], k);
      assert forall i | 0 <= i < |txs| - 1 :: txs[..|txs| - 1][i] == txs[i];
      r
  }

  lemma {:induction false} AppendedKey(txs: seq<Transaction>, t: Transaction, k: IdempotencyKey)
    ensures KeyTaken(txs + [t], k) <==> KeyTaken(txs, k) || t.key == k
  {
    assert (txs + [t])[|txs|] == t;
    if KeyTaken(txs, k) {
      var i :| 0 <= i < |txs| && txs[i].key == k;
      assert (txs + [t])[i].key == k;
    }
  }

  lemma {:induction false} AppendedLog(logs: seq<PaymentLog>, log: PaymentLog, t: TxId)
    ensures HasLog(logs + [log], t) <==> HasLog(logs, t) || log.tx == t
  {
    assert (logs + [log])[|logs|] == log;
    if HasLog(logs, t) {
      var i :| 0 <= i < |logs| && logs[i].tx == t;
      assert (logs + [log])[i].tx == t;
    }
  }
}
