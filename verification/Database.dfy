/** The tables in place, with the repository methods that read and update them. */
module Database {
  import opened Schema

  class Store {
    var wallets: map<WalletId, Wallet>
    var owners: map<UserId, WalletId>
    var customers: map<UserId, CustomerId>
    var txs: seq<Transaction>
    var ledger: seq<LedgerEntry>
    var logs: seq<PaymentLog>
    var outbox: seq<OutboxEvent>

    function Tables(): Db
      reads this
    {
      Db(wallets, owners, customers, txs, ledger, logs, outbox)
    }

    constructor (db: Db)
      ensures Tables() == db
    {
      wallets, owners, customers := db.wallets, db.owners, db.customers;
      txs, ledger, logs, outbox := db.txs, db.ledger, db.logs, db.outbox;
    }

    /** withTransaction: an exception restores the tables as they were when the block began. */
    method Rollback(saved: Db)
      modifies this
      ensures Tables() == saved
    {
      wallets, owners, customers := saved.wallets, saved.owners, saved.customers;
      txs, ledger, logs, outbox := saved.txs, saved.ledger, saved.logs, saved.outbox;
    }

    // ---- wallet.repository

    method FindByUserId(user: UserId) returns (r: Result<WalletId>)
      ensures r == if user in owners then Ok(owners[user]) else Err(WalletNotFound)
    {
      if user in owners { return Ok(owners[user]); }
      return Err(WalletNotFound);
    }

    /** SELECT ... FOR UPDATE; here there is nobody else to wait for. */
    method LockWallet(id: WalletId) returns (r: Result<Wallet>)
      ensures r == if id in wallets then Ok(wallets[id]) else Err(WalletNotFound)
    {
      if id in wallets { return Ok(wallets[id]); }
      return Err(WalletNotFound);
    }

    /** UPDATE "Wallet" SET ... RETURNING: refused when the row is missing or a column would overflow. */
    method UpdateWallet(id: WalletId, available: int, locked: int, pending: int) returns (r: Result<Wallet>)
      modifies this`wallets
      ensures id !in old(wallets) ==> r == Err(RecordNotFound)
      ensures id in old(wallets) ==>
                var moved := Shift(old(wallets)[id], available, locked, pending);
                if WalletFits(moved)
                then r == Ok(moved) && wallets == old(wallets)[id := moved]
                else r == Err(NumericOverflow)
      ensures r.Err? ==> wallets == old(wallets)
    {
      if id !in wallets { return Err(RecordNotFound); }
      var moved := Shift(wallets[id], available, locked, pending);
      if !WalletFits(moved) { return Err(NumericOverflow); }
      wallets := wallets[id := moved];
      return Ok(moved);
    }

    // ---- users.repository

    /** Writes the id unless the user has it already; another user's id is refused, and no user loses its own. */
    method UpsertBraintreeCustomerId(user: UserId, customer: CustomerId) returns (r: Result<()>)
      modifies this`customers
      ensures r.Ok? ==> customers == old(customers)[user := customer]
      ensures r.Err? ==> customers == old(customers)
      ensures user in old(customers) && old(customers)[user] == customer ==> r.Ok?
      ensures !(user in old(customers) && old(customers)[user] == customer) ==>
                && (r.Ok? <==> user in owners && !HeldByAnother(old(Tables()), user, customer))
                && (r.Err? ==> r.error == if user !in owners then RecordNotFound else UniqueViolation)
    {
      if user in customers && customers[user] == customer { return Ok(()); }
      if user !in owners { return Err(RecordNotFound); }
      if exists u | u in customers :: u != user && customers[u] == customer { return Err(UniqueViolation); }
      customers := customers[user := customer];
      return Ok(());
    }

    // ---- transaction.repository, payment.repository

    method InsertTransaction(row: Transaction) returns (r: Result<TxId>)
      modifies this`txs
      ensures KeyTaken(old(txs), row.key) ==> r == Err(UniqueViolation) && txs == old(txs)
      ensures !KeyTaken(old(txs), row.key) ==> r == Ok(|old(txs)|) && txs == old(txs) + [row]
    {
      if KeyTaken(txs, row.key) { return Err(UniqueViolation); }
      txs := txs + [row];
      return Ok(|txs| - 1);
    }

    method InsertLedgerEntry(entry: LedgerEntry)
      modifies this`ledger
      ensures ledger == old(ledger) + [entry]
    {
      ledger := ledger + [entry];
    }

    method InsertOutboxEvent(tx: TxId, eventType: EventType, user: Option<UserId>)
      modifies this`outbox
      ensures outbox == old(outbox) + [OutboxEvent(tx, eventType, user, false, 0)]
    {
      outbox := outbox + [OutboxEvent(tx, eventType, user, false, 0)];
    }

    method UpdateStatus(tx: TxId, status: TransactionStatus) returns (r: Result<()>)
      modifies this`txs
      ensures |old(txs)| <= tx ==> r == Err(RecordNotFound) && txs == old(txs)
      ensures tx < |old(txs)| ==> r == Ok(()) && txs == old(txs)[tx := old(txs)[tx].(status := status)]
    {
      if |txs| <= tx { return Err(RecordNotFound); }
      txs := txs[tx := txs[tx].(status := status)];
      return Ok(());
    }

    method CreatePaymentLog(tx: TxId, provider: Option<Provider>, status: TransactionStatus) returns (r: Result<()>)
      modifies this`logs
      ensures r.Ok? <==> provider.Some? && !HasLog(old(logs), tx)
      ensures r.Ok? ==> logs == old(logs) + [PaymentLog(tx, provider.value, status)]
      ensures r.Err? ==> logs == old(logs) && r.error == (if provider.None? then InvalidArgument else UniqueViolation)
    {
      if provider.None? { return Err(InvalidArgument); }
      if HasLog(logs, tx) { return Err(UniqueViolation); }
      logs := logs + [PaymentLog(tx, provider.value, status)];
      return Ok(());
    }

    method MarkDelivered(event: EventId) returns (r: Result<()>)
      modifies this`outbox
      ensures |old(outbox)| <= event ==> r == Err(RecordNotFound) && outbox == old(outbox)
      ensures event < |old(outbox)| ==>
                r == Ok(()) && outbox == old(outbox)[event := old(outbox)[event].(delivered := true)]
    {
      if |outbox| <= event { return Err(RecordNotFound); }
      outbox := outbox[event := outbox[event].(delivered := true)];
      return Ok(());
    }

    method IncrementRetry(event: EventId) returns (r: Result<()>)
      modifies this`outbox
      ensures |old(outbox)| <= event ==> r == Err(RecordNotFound) && outbox == old(outbox)
      ensures event < |old(outbox)| ==>
                && r == Ok(())
                && outbox == old(outbox)[event := old(outbox)[event].(retryCount := old(outbox)[event].retryCount + 1)]
    {
      if |outbox| <= event { return Err(RecordNotFound); }
      outbox := outbox[event := outbox[event].(retryCount := outbox[event].retryCount + 1)];
      return Ok(());
    }
  }
}
