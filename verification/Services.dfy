/** The service methods as they run: statement after statement on the tables, rolled back on the first exception. */
module Services {
  import opened Schema
  import opened Operations
  import opened Database

  /** transaction.service.ts */
  class TransactionService {
    const store: Store

    constructor (store: Store)
      ensures this.store == store
    {
      this.store := store;
    }

    method Deposit(user: UserId, key: IdempotencyKey, amount: Amount, currency: Currency) returns (outcome: Outcome)
      modifies store
      ensures (store.Tables(), outcome) == Perform(old(store.Tables()), Operation.Deposit(user, key, amount, currency))
    {
      var existing := FindByKey(store.txs, key);
      if existing.Some? { return Replayed(existing.value); }
      var saved := store.Tables();
      var r := DepositBlock(user, key, amount, currency);
      if r.Err? {
        store.Rollback(saved);
        return Rejected(r.error);
      }
      return Committed;
    }

    /** The body of deposit's database transaction; an exception may leave it half done. */
    method DepositBlock(user: UserId, key: IdempotencyKey, amount: Amount, currency: Currency) returns (r: Result<()>)
      modifies store
      ensures var body := DepositBody(old(store.Tables()), user, key, amount, currency, INTERNAL);
              if r.Ok? then body == Ok(store.Tables()) else body == Err(r.error)
    {
      var found := store.FindByUserId(user);
      if found.Err? { return Err(found.error); }
      var id := found.value;
      var locked := store.LockWallet(id);
      if locked.Err? { return Err(locked.error); }
      if locked.value.status != ACTIVE { return Err(WalletNotActive); }
      if locked.value.currency != currency { return Err(CurrencyMismatch); }
      var credited := store.UpdateWallet(id, 0, 0, amount);
      if credited.Err? { return Err(credited.error); }
      var tx := store.InsertTransaction(
        Transaction(key, DEPOSIT, INITIATED, amount, currency, None, Some(id), Some(INTERNAL)));
      if tx.Err? { return Err(tx.error); }
      store.InsertLedgerEntry(LedgerEntry(id, tx.value, CREDIT, amount, currency, credited.value.pending));
      store.InsertOutboxEvent(tx.value, DEPOSIT_INITIATED, Some(user));
      return Ok(());
    }

    method Withdraw(user: UserId, key: IdempotencyKey, amount: Amount, currency: Currency) returns (outcome: Outcome)
      modifies store
      ensures (store.Tables(), outcome) == Perform(old(store.Tables()), Operation.Withdraw(user, key, amount, currency))
    {
      var existing := FindByKey(store.txs, key);
      if existing.Some? { return Replayed(existing.value); }
      var saved := store.Tables();
      var r := WithdrawBlock(user, key, amount, currency);
      if r.Err? {
        store.Rollback(saved);
        return Rejected(r.error);
      }
      return Committed;
    }

    method WithdrawBlock(user: UserId, key: IdempotencyKey, amount: Amount, currency: Currency) returns (r: Result<()>)
      modifies store
      ensures var body := WithdrawBody(old(store.Tables()), user, key, amount, currency, INTERNAL, true);
              if r.Ok? then body == Ok(store.Tables()) else body == Err(r.error)
    {
      var found := store.FindByUserId(user);
      if found.Err? { return Err(found.error); }
      var id := found.value;
      var locked := store.LockWallet(id);
      if locked.Err? { return Err(locked.error); }
      if locked.value.status != ACTIVE { return Err(WalletNotActive); }
      if locked.value.currency != currency { return Err(CurrencyMismatch); }
      if locked.value.available < amount { return Err(InsufficientBalance); }
      var held := store.UpdateWallet(id, 0 - amount, amount, 0);
      if held.Err? { return Err(held.error); }
      var tx := store.InsertTransaction(
        Transaction(key, WITHDRAWAL, INITIATED, amount, currency, Some(id), None, Some(INTERNAL)));
      if tx.Err? { return Err(tx.error); }
      store.InsertLedgerEntry(LedgerEntry(id, tx.value, DEBIT, amount, currency, held.value.locked));
      store.InsertOutboxEvent(tx.value, WITHDRAWAL_INITIATED, Some(user));
      return Ok(());
    }

    method Transfer(user: UserId, recipient: UserId, key: IdempotencyKey, amount: Amount, currency: Currency)
      returns (outcome: Outcome)
      modifies store
      ensures (store.Tables(), outcome)
              == Perform(old(store.Tables()), Operation.Transfer(user, recipient, key, amount, currency))
    {
      if user == recipient { return Rejected(SelfTransfer); }
      var existing := FindByKey(store.txs, key);
      if existing.Some? { return Replayed(existing.value); }
      var sender := store.FindByUserId(user);
      var receiver := store.FindByUserId(recipient);
      if sender.Err? { return Rejected(sender.error); }
      if receiver.Err? { return Rejected(receiver.error); }
      var saved := store.Tables();
      var r := TransferBlock(sender.value, receiver.value, user, recipient, key, amount, currency);
      if r.Err? {
        store.Rollback(saved);
        return Rejected(r.error);
      }
      return Committed;
    }

    /** Lower wallet id first, then mapped back to sender and receiver. */
    method LockBoth(sender: WalletId, receiver: WalletId) returns (r: Result<(Wallet, Wallet)>)
      ensures r.Ok? <==> sender in store.wallets && receiver in store.wallets
      ensures r.Ok? ==> r.value == (store.wallets[sender], store.wallets[receiver])
      ensures r.Err? ==> r.error == WalletNotFound
    {
      var firstId := if sender < receiver then sender else receiver;
      var secondId := if sender < receiver then receiver else sender;
      var first := store.LockWallet(firstId);
      if first.Err? { return Err(first.error); }
      var second := store.LockWallet(secondId);
      if second.Err? { return Err(second.error); }
      var lockedSender := if firstId == sender then first.value else second.value;
      var lockedReceiver := if firstId == receiver then first.value else second.value;
      return Ok((lockedSender, lockedReceiver));
    }

    method TransferBlock(sender: WalletId, receiver: WalletId, ghost user: UserId, ghost recipient: UserId,
                         key: IdempotencyKey, amount: Amount, currency: Currency) returns (r: Result<()>)
      requires user != recipient
      requires user in store.owners && store.owners[user] == sender
      requires recipient in store.owners && store.owners[recipient] == receiver
      modifies store
      ensures var body := TransferBody(old(store.Tables()), user, recipient, key, amount, currency);
              if r.Ok? then body == Ok(store.Tables()) else body == Err(r.error)
    {
      var locked := LockBoth(sender, receiver);
      if locked.Err? { return Err(locked.error); }
      var (lockedSender, lockedReceiver) := locked.value;
      if lockedSender.status != ACTIVE || lockedReceiver.status != ACTIVE { return Err(WalletNotActive); }
      if lockedSender.currency != currency || lockedReceiver.currency != currency { return Err(CurrencyMismatch); }
      if lockedSender.available < amount { return Err(InsufficientBalance); }
      var debited := store.UpdateWallet(sender, 0 - amount, 0, 0);
      if debited.Err? { return Err(debited.error); }
      var credited := store.UpdateWallet(receiver, amount, 0, 0);
      if credited.Err? { return Err(credited.error); }
      var tx := store.InsertTransaction(
        Transaction(key, TRANSFER, SETTLED, amount, currency, Some(sender), Some(receiver), Some(INTERNAL)));
      if tx.Err? { return Err(tx.error); }
      var debit := LedgerEntry(sender, tx.value, DEBIT, amount, currency, debited.value.available);
      var credit := LedgerEntry(receiver, tx.value, CREDIT, amount, currency, credited.value.available);
      store.InsertLedgerEntry(debit);
      store.InsertLedgerEntry(credit);
      store.InsertOutboxEvent(tx.value, TRANSFER_SETTLED, None);
      assert old(store.ledger) + [debit] + [credit] == old(store.ledger) + [debit, credit];
      return Ok(());
    }
  }

  /** payment.service.ts: initiation only; the ledger entry is written when the provider has settled. */
  class PaymentService {
    const store: Store

    constructor (store: Store)
      ensures this.store == store
    {
      this.store := store;
    }

    method ConfirmDeposit(user: UserId, key: IdempotencyKey, amount: Amount, currency: Currency, provider: Provider)
      returns (outcome: Outcome)
      requires provider != INTERNAL
      modifies store
      ensures (store.Tables(), outcome)
              == Perform(old(store.Tables()), Operation.ConfirmDeposit(user, key, amount, currency, provider))
    {
      var existing := FindByKey(store.txs, key);
      if existing.Some? { return Replayed(existing.value); }
      var saved := store.Tables();
      var r := ConfirmDepositBlock(user, key, amount, currency, provider);
      if r.Err? {
        store.Rollback(saved);
        return Rejected(r.error);
      }
      return Committed;
    }

    method ConfirmDepositBlock(user: UserId, key: IdempotencyKey, amount: Amount, currency: Currency,
                               provider: Provider)
      returns (r: Result<()>)
      requires provider != INTERNAL
      modifies store
      ensures var body := DepositBody(old(store.Tables()), user, key, amount, currency, provider);
              if r.Ok? then body == Ok(store.Tables()) else body == Err(r.error)
    {
      var found := store.FindByUserId(user);
      if found.Err? { return Err(found.error); }
      var id := found.value;
      var locked := store.LockWallet(id);
      if locked.Err? { return Err(locked.error); }
      if locked.value.status != ACTIVE { return Err(WalletNotActive); }
      if locked.value.currency != currency { return Err(CurrencyMismatch); }
      var credited := store.UpdateWallet(id, 0, 0, amount);
      if credited.Err? { return Err(credited.error); }
      var tx := store.InsertTransaction(
        Transaction(key, DEPOSIT, INITIATED, amount, currency, None, Some(id), Some(provider)));
      if tx.Err? { return Err(tx.error); }
      store.InsertOutboxEvent(tx.value, DEPOSIT_INITIATED, Some(user));
      assert store.ledger + [] == store.ledger;
      return Ok(());
    }

    /** `destinationLinked`: a Stripe account or PayPal address is on file; it is looked up after the balance moved. */
    method CreatePayout(user: UserId, key: IdempotencyKey, amount: Amount, currency: Currency, provider: Provider,
                        destinationLinked: bool) returns (outcome: Outcome)
      requires provider != INTERNAL
      modifies store
      ensures (store.Tables(), outcome)
              == Perform(old(store.Tables()),
                Operation.CreatePayout(user, key, amount, currency, provider, destinationLinked))
    {
      var existing := FindByKey(store.txs, key);
      if existing.Some? { return Replayed(existing.value); }
      var saved := store.Tables();
      var r := CreatePayoutBlock(user, key, amount, currency, provider, destinationLinked);
      if r.Err? {
        store.Rollback(saved);
        return Rejected(r.error);
      }
      return Committed;
    }

    method CreatePayoutBlock(user: UserId, key: IdempotencyKey, amount: Amount, currency: Currency, provider: Provider,
                             destinationLinked: bool) returns (r: Result<()>)
      requires provider != INTERNAL
      modifies store
      ensures var body := WithdrawBody(old(store.Tables()), user, key, amount, currency, provider, destinationLinked);
              if r.Ok? then body == Ok(store.Tables()) else body == Err(r.error)
    {
      var found := store.FindByUserId(user);
      if found.Err? { return Err(found.error); }
      var id := found.value;
      var locked := store.LockWallet(id);
      if locked.Err? { return Err(locked.error); }
      if locked.value.status != ACTIVE { return Err(WalletNotActive); }
      if locked.value.currency != currency { return Err(CurrencyMismatch); }
      if locked.value.available < amount { return Err(InsufficientBalance); }
      var held := store.UpdateWallet(id, 0 - amount, amount, 0);
      if held.Err? { return Err(held.error); }
      if !destinationLinked { return Err(PayoutDestinationMissing); }
      var tx := store.InsertTransaction(
        Transaction(key, WITHDRAWAL, INITIATED, amount, currency, Some(id), None, Some(provider)));
      if tx.Err? { return Err(tx.error); }
      store.InsertOutboxEvent(tx.value, WITHDRAWAL_INITIATED, Some(user));
      assert store.ledger + [] == store.ledger;
      return Ok(());
    }
  }

  /** payment-settlement.service.ts */
  class PaymentSettlementService {
    const store: Store

    constructor (store: Store)
      ensures this.store == store
    {
      this.store := store;
    }

    /** `customer` is the Braintree customer id in the provider's response, if any. */
    method Settle(ctx: TransactionContext, event: EventId, customer: Option<CustomerId>) returns (outcome: Outcome)
      modifies store
      ensures (store.Tables(), outcome) == Perform(old(store.Tables()), Operation.Settle(ctx, event, customer))
    {
      var saved := store.Tables();
      var r: Result<()>;
      match ctx.kind {
        case DEPOSIT => r := SettleDeposit(ctx, event, customer);
        case WITHDRAWAL => r := SettleWithdrawal(ctx, event, customer);
        case TRANSFER => r := Err(UnsupportedType);
      }
      if r.Err? {
        store.Rollback(saved);
        return Rejected(r.error);
      }
      return Committed;
    }

    method Fail(ctx: TransactionContext, event: EventId) returns (outcome: Outcome)
      modifies store
      ensures (store.Tables(), outcome) == Perform(old(store.Tables()), Operation.Fail(ctx, event))
    {
      var saved := store.Tables();
      var r: Result<()>;
      match ctx.kind {
        case DEPOSIT => r := FailDeposit(ctx, event);
        case WITHDRAWAL => r := FailWithdrawal(ctx, event);
        case TRANSFER => r := Err(UnsupportedType);
      }
      if r.Err? {
        store.Rollback(saved);
        return Rejected(r.error);
      }
      return Committed;
    }

    method SettleDeposit(ctx: TransactionContext, event: EventId, customer: Option<CustomerId>) returns (r: Result<()>)
      requires ctx.kind == DEPOSIT
      modifies store
      ensures var body := SettlementBody(old(store.Tables()), ctx, event, Settled(customer));
              if r.Ok? then body == Ok(store.Tables()) else body == Err(r.error)
    {
      if ctx.receiver.None? { return Err(InvalidArgument); }
      var id := ctx.receiver.value;
      var moved := store.UpdateWallet(id, ctx.amount, 0, 0 - ctx.amount);
      if moved.Err? { return Err(moved.error); }
      var stamped := store.UpdateStatus(ctx.id, SETTLED);
      if stamped.Err? { return stamped; }
      store.InsertLedgerEntry(LedgerEntry(id, ctx.id, CREDIT, ctx.amount, ctx.currency, moved.value.available));
      var logged := store.CreatePaymentLog(ctx.id, ctx.provider, SETTLED);
      if logged.Err? { return logged; }
      r := store.MarkDelivered(event);
      if r.Ok? && ctx.provider == Some(PAYPAL) && customer.Some? {
        ghost var closed := store.Tables();
        r := store.UpsertBraintreeCustomerId(ctx.user, customer.value);
        assert ctx.user in closed.customers && closed.customers[ctx.user] == customer.value ==>
                 closed.customers[ctx.user := customer.value] == closed.customers;
      }
    }

    method SettleWithdrawal(ctx: TransactionContext, event: EventId, ghost customer: Option<CustomerId>)
      returns (r: Result<()>)
      requires ctx.kind == WITHDRAWAL
      modifies store
      ensures var body := SettlementBody(old(store.Tables()), ctx, event, Settled(customer));
              if r.Ok? then body == Ok(store.Tables()) else body == Err(r.error)
    {
      if ctx.sender.None? { return Err(InvalidArgument); }
      var id := ctx.sender.value;
      var moved := store.UpdateWallet(id, 0, 0 - ctx.amount, 0);
      if moved.Err? { return Err(moved.error); }
      var stamped := store.UpdateStatus(ctx.id, SETTLED);
      if stamped.Err? { return stamped; }
      store.InsertLedgerEntry(LedgerEntry(id, ctx.id, DEBIT, ctx.amount, ctx.currency, moved.value.locked));
      var logged := store.CreatePaymentLog(ctx.id, ctx.provider, SETTLED);
      if logged.Err? { return logged; }
      r := store.MarkDelivered(event);
    }

    method FailDeposit(ctx: TransactionContext, event: EventId) returns (r: Result<()>)
      requires ctx.kind == DEPOSIT
      modifies store
      ensures var body := SettlementBody(old(store.Tables()), ctx, event, Failed);
              if r.Ok? then body == Ok(store.Tables()) else body == Err(r.error)
    {
      if ctx.receiver.None? { return Err(InvalidArgument); }
      var moved := store.UpdateWallet(ctx.receiver.value, 0, 0, 0 - ctx.amount);
      if moved.Err? { return Err(moved.error); }
      var stamped := store.UpdateStatus(ctx.id, FAILED);
      if stamped.Err? { return stamped; }
      var logged := store.CreatePaymentLog(ctx.id, ctx.provider, FAILED);
      if logged.Err? { return logged; }
      r := store.MarkDelivered(event);
      assert store.ledger + [] == store.ledger;
    }

    method FailWithdrawal(ctx: TransactionContext, event: EventId) returns (r: Result<()>)
      requires ctx.kind == WITHDRAWAL
      modifies store
      ensures var body := SettlementBody(old(store.Tables()), ctx, event, Failed);
              if r.Ok? then body == Ok(store.Tables()) else body == Err(r.error)
    {
      if ctx.sender.None? { return Err(InvalidArgument); }
      var moved := store.UpdateWallet(ctx.sender.value, ctx.amount, 0 - ctx.amount, 0);
      if moved.Err? { return Err(moved.error); }
      var stamped := store.UpdateStatus(ctx.id, FAILED);
      if stamped.Err? { return stamped; }
      var logged := store.CreatePaymentLog(ctx.id, ctx.provider, FAILED);
      if logged.Err? { return logged; }
      r := store.MarkDelivered(event);
      assert store.ledger + [] == store.ledger;
    }
  }
}
