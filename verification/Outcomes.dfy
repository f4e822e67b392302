/**
 * What every call answers and writes, in the columns of the tables: when a request commits, which guard refuses it,
 * and what the tables hold afterwards.
 */
module Outcomes {
  import opened Schema
  import opened Operations
  import opened Invariants
  import opened Runs
  import opened Outbox

  /** Every balance fits its Decimal(18, 4) column. */
  predicate ColumnsFit(db: Db) {
    forall w | w in db.wallets ::
      && -999_999_999_999_999_999 <= db.wallets[w].available <= 999_999_999_999_999_999
      && -999_999_999_999_999_999 <= db.wallets[w].locked <= 999_999_999_999_999_999
      && -999_999_999_999_999_999 <= db.wallets[w].pending <= 999_999_999_999_999_999
  }

  lemma {:induction false} SoundColumnsFit(db: Db)
    requires Inv(db)
    ensures ColumnsFit(db)
  {
    forall w | w in db.wallets
      ensures WalletFits(db.wallets[w])
    {
      assert WalletSound(db, w);
    }
  }

  predicate KeyUsed(db: Db, k: IdempotencyKey) {
    exists i | 0 <= i < |db.txs| :: db.txs[i].key == k
  }

  predicate HasWallet(db: Db, u: UserId) {
    u in db.owners && db.owners[u] in db.wallets
  }

  // ---- deposit and confirmDeposit

  /** Exactly which guard refuses a deposit's database transaction, in the order of the code. */
  lemma {:induction false} DepositGuards(db: Db, u: UserId, k: IdempotencyKey, a: Amount, c: Currency, p: Provider)
    requires ColumnsFit(db)
    ensures DepositBody(db, u, k, a, c, p) == Err(WalletNotFound) <==> !HasWallet(db, u)
    ensures HasWallet(db, u) ==>
              var w, body := db.wallets[db.owners[u]], DepositBody(db, u, k, a, c, p);
              && (body == Err(WalletNotActive) <==> w.status != ACTIVE)
              && (body == Err(CurrencyMismatch) <==> w.status == ACTIVE && w.currency != c)
              && (body == Err(NumericOverflow) <==>
                    w.status == ACTIVE && w.currency == c && 999_999_999_999_999_999 < w.pending + a)
              && (body == Err(UniqueViolation) <==>
                    w.status == ACTIVE && w.currency == c && w.pending + a <= 999_999_999_999_999_999 && KeyUsed(db, k))
              && (body.Ok? <==>
                    w.status == ACTIVE && w.currency == c && w.pending + a <= 999_999_999_999_999_999
                      && !KeyUsed(db, k))
  {
  }

  /** What a deposit writes: the amount is pending; the ledger entry is written at once only for INTERNAL. */
  lemma {:induction false} DepositWrites(db: Db, u: UserId, k: IdempotencyKey, a: Amount, c: Currency, p: Provider)
    requires DepositBody(db, u, k, a, c, p).Ok?
    ensures HasWallet(db, u)
    ensures var id, w, t := db.owners[u], db.wallets[db.owners[u]], |db.txs|;
            DepositBody(db, u, k, a, c, p).value == Db(
              db.wallets[id := w.(pending := w.pending + a)], db.owners, db.customers,
              db.txs + [Transaction(k, DEPOSIT, INITIATED, a, c, None, Some(id), Some(p))],
              db.ledger + (if p == INTERNAL then [LedgerEntry(id, t, CREDIT, a, c, w.pending + a)] else []),
              db.logs,
              db.outbox + [OutboxEvent(t, DEPOSIT_INITIATED, Some(u), false, 0)])
  {
  }

  /** deposit: what it answers, and what the tables are then. */
  lemma {:induction false} DepositAnswers(db: Db, u: UserId, k: IdempotencyKey, a: Amount, c: Currency)
    requires ColumnsFit(db)
    ensures InitiationAnswers(db, Deposit(u, k, a, c), k)
    ensures var outcome := Perform(db, Deposit(u, k, a, c)).1;
            DepositOutcomeIff(db, u, k, a, c, outcome)
    ensures Perform(db, Deposit(u, k, a, c)).1 == Committed ==>
              var id, w, t := db.owners[u], db.wallets[db.owners[u]], |db.txs|;
              Perform(db, Deposit(u, k, a, c)).0 == Db(
                db.wallets[id := w.(pending := w.pending + a)], db.owners, db.customers,
                db.txs + [Transaction(k, DEPOSIT, INITIATED, a, c, None, Some(id), Some(INTERNAL))],
                db.ledger + [LedgerEntry(id, t, CREDIT, a, c, w.pending + a)], db.logs,
                db.outbox + [OutboxEvent(t, DEPOSIT_INITIATED, Some(u), false, 0)])
  {
    DepositGuards(db, u, k, a, c, INTERNAL);
    if DepositBody(db, u, k, a, c, INTERNAL).Ok? { DepositWrites(db, u, k, a, c, INTERNAL); }
  }

  /** confirmDeposit: the same guards, the provider's row and no ledger entry yet. */
  lemma {:induction false} ConfirmDepositAnswers(db: Db, u: UserId, k: IdempotencyKey, a: Amount, c: Currency,
                                                 p: Provider)
    requires ColumnsFit(db) && p != INTERNAL
    ensures InitiationAnswers(db, ConfirmDeposit(u, k, a, c, p), k)
    ensures var outcome := Perform(db, ConfirmDeposit(u, k, a, c, p)).1;
            DepositOutcomeIff(db, u, k, a, c, outcome)
    ensures Perform(db, ConfirmDeposit(u, k, a, c, p)).1 == Committed ==>
              var id, w, t := db.owners[u], db.wallets[db.owners[u]], |db.txs|;
              Perform(db, ConfirmDeposit(u, k, a, c, p)).0 == Db(
                db.wallets[id := w.(pending := w.pending + a)], db.owners, db.customers,
                db.txs + [Transaction(k, DEPOSIT, INITIATED, a, c, None, Some(id), Some(p))],
                db.ledger, db.logs,
                db.outbox + [OutboxEvent(t, DEPOSIT_INITIATED, Some(u), false, 0)])
  {
    DepositGuards(db, u, k, a, c, p);
    if DepositBody(db, u, k, a, c, p).Ok? { DepositWrites(db, u, k, a, c, p); }
  }

  /**
   * A used key is answered with its row and nothing else is; every answer but "committed" leaves the tables alone.
   */
  predicate InitiationAnswers(db: Db, op: Operation, k: IdempotencyKey) {
    var (after, outcome) := Perform(db, op);
    && (outcome.Replayed? <==> KeyUsed(db, k))
    && (outcome.Replayed? ==> outcome.tx < |db.txs| && db.txs[outcome.tx].key == k)
    && (outcome != Committed ==> after == db)
    && outcome != Rejected(UniqueViolation) && outcome != Rejected(Interrupted)
  }

  /** The answers to a deposit of a key that may be new, guard by guard. */
  predicate DepositOutcomeIff(db: Db, u: UserId, k: IdempotencyKey, a: Amount, c: Currency, outcome: Outcome) {
    && (outcome == Rejected(WalletNotFound) <==> !KeyUsed(db, k) && !HasWallet(db, u))
    && (HasWallet(db, u) ==>
          var w := db.wallets[db.owners[u]];
          && (outcome == Rejected(WalletNotActive) <==> !KeyUsed(db, k) && w.status != ACTIVE)
          && (outcome == Rejected(CurrencyMismatch) <==> !KeyUsed(db, k) && w.status == ACTIVE && w.currency != c)
          && (outcome == Rejected(NumericOverflow) <==>
                !KeyUsed(db, k) && w.status == ACTIVE && w.currency == c && 999_999_999_999_999_999 < w.pending + a))
    && (outcome == Committed <==>
          && !KeyUsed(db, k) && HasWallet(db, u)
          && var w := db.wallets[db.owners[u]];
             w.status == ACTIVE && w.currency == c && w.pending + a <= 999_999_999_999_999_999)
  }

  // ---- withdraw and createPayout

  /** Exactly which guard refuses a withdrawal's database transaction, in the order of the code. */
  lemma {:induction false} WithdrawGuards(db: Db, u: UserId, k: IdempotencyKey, a: Amount, c: Currency, p: Provider,
                                          linked: bool)
    requires ColumnsFit(db)
    ensures WithdrawBody(db, u, k, a, c, p, linked) == Err(WalletNotFound) <==> !HasWallet(db, u)
    ensures HasWallet(db, u) ==>
              var w, body := db.wallets[db.owners[u]], WithdrawBody(db, u, k, a, c, p, linked);
              var open := w.status == ACTIVE && w.currency == c && a <= w.available;
              && (body == Err(WalletNotActive) <==> w.status != ACTIVE)
              && (body == Err(CurrencyMismatch) <==> w.status == ACTIVE && w.currency != c)
              && (body == Err(InsufficientBalance) <==> w.status == ACTIVE && w.currency == c && w.available < a)
              && (body == Err(NumericOverflow) <==> open && 999_999_999_999_999_999 < w.locked + a)
              && (body == Err(PayoutDestinationMissing) <==>
                    open && w.locked + a <= 999_999_999_999_999_999 && !linked)
              && (body == Err(UniqueViolation) <==>
                    open && w.locked + a <= 999_999_999_999_999_999 && linked && KeyUsed(db, k))
              && (body.Ok? <==> open && w.locked + a <= 999_999_999_999_999_999 && linked && !KeyUsed(db, k))
  {
  }

  /** What a withdrawal writes: the amount is locked; the ledger entry is written at once only for INTERNAL. */
  lemma {:induction false} WithdrawWrites(db: Db, u: UserId, k: IdempotencyKey, a: Amount, c: Currency, p: Provider,
                                          linked: bool)
    requires WithdrawBody(db, u, k, a, c, p, linked).Ok?
    ensures HasWallet(db, u)
    ensures var id, w, t := db.owners[u], db.wallets[db.owners[u]], |db.txs|;
            WithdrawBody(db, u, k, a, c, p, linked).value == Db(
              db.wallets[id := w.(available := w.available - a, locked := w.locked + a)], db.owners, db.customers,
              db.txs + [Transaction(k, WITHDRAWAL, INITIATED, a, c, Some(id), None, Some(p))],
              db.ledger + (if p == INTERNAL then [LedgerEntry(id, t, DEBIT, a, c, w.locked + a)] else []),
              db.logs,
              db.outbox + [OutboxEvent(t, WITHDRAWAL_INITIATED, Some(u), false, 0)])
  {
  }

  /** The answers to a withdrawal of a key that may be new, guard by guard. */
  predicate WithdrawOutcomeIff(db: Db, u: UserId, k: IdempotencyKey, a: Amount, c: Currency, linked: bool,
                               outcome: Outcome) {
    && (outcome == Rejected(WalletNotFound) <==> !KeyUsed(db, k) && !HasWallet(db, u))
    && (HasWallet(db, u) ==>
          var w := db.wallets[db.owners[u]];
          var open := !KeyUsed(db, k) && w.status == ACTIVE && w.currency == c && a <= w.available;
          && (outcome == Rejected(WalletNotActive) <==> !KeyUsed(db, k) && w.status != ACTIVE)
          && (outcome == Rejected(CurrencyMismatch) <==> !KeyUsed(db, k) && w.status == ACTIVE && w.currency != c)
          && (outcome == Rejected(InsufficientBalance) <==>
                !KeyUsed(db, k) && w.status == ACTIVE && w.currency == c && w.available < a)
          && (outcome == Rejected(NumericOverflow) <==> open && 999_999_999_999_999_999 < w.locked + a)
          && (outcome == Rejected(PayoutDestinationMissing) <==>
                open && w.locked + a <= 999_999_999_999_999_999 && !linked))
    && (outcome == Committed <==>
          && !KeyUsed(db, k) && HasWallet(db, u) && linked
          && var w := db.wallets[db.owners[u]];
             && w.status == ACTIVE && w.currency == c && a <= w.available && w.locked + a <= 999_999_999_999_999_999)
  }

  /** withdraw: what it answers, and what the tables are then. */
  lemma {:induction false} WithdrawAnswers(db: Db, u: UserId, k: IdempotencyKey, a: Amount, c: Currency)
    requires ColumnsFit(db)
    ensures InitiationAnswers(db, Withdraw(u, k, a, c), k)
    ensures var outcome := Perform(db, Withdraw(u, k, a, c)).1;
            WithdrawOutcomeIff(db, u, k, a, c, true, outcome)
    ensures Perform(db, Withdraw(u, k, a, c)).1 == Committed ==>
              var id, w, t := db.owners[u], db.wallets[db.owners[u]], |db.txs|;
              Perform(db, Withdraw(u, k, a, c)).0 == Db(
                db.wallets[id := w.(available := w.available - a, locked := w.locked + a)], db.owners, db.customers,
                db.txs + [Transaction(k, WITHDRAWAL, INITIATED, a, c, Some(id), None, Some(INTERNAL))],
                db.ledger + [LedgerEntry(id, t, DEBIT, a, c, w.locked + a)], db.logs,
                db.outbox + [OutboxEvent(t, WITHDRAWAL_INITIATED, Some(u), false, 0)])
  {
    WithdrawGuards(db, u, k, a, c, INTERNAL, true);
    if WithdrawBody(db, u, k, a, c, INTERNAL, true).Ok? { WithdrawWrites(db, u, k, a, c, INTERNAL, true); }
  }

  /** createPayout: the same guards and the payout destination, the provider's row and no ledger entry yet. */
  lemma {:induction false} CreatePayoutAnswers(db: Db, u: UserId, k: IdempotencyKey, a: Amount, c: Currency,
                                               p: Provider,
                                               linked: bool)
    requires ColumnsFit(db) && p != INTERNAL
    ensures InitiationAnswers(db, CreatePayout(u, k, a, c, p, linked), k)
    ensures var outcome := Perform(db, CreatePayout(u, k, a, c, p, linked)).1;
            WithdrawOutcomeIff(db, u, k, a, c, linked, outcome)
    ensures Perform(db, CreatePayout(u, k, a, c, p, linked)).1 == Committed ==>
              var id, w, t := db.owners[u], db.wallets[db.owners[u]], |db.txs|;
              Perform(db, CreatePayout(u, k, a, c, p, linked)).0 == Db(
                db.wallets[id := w.(available := w.available - a, locked := w.locked + a)], db.owners, db.customers,
                db.txs + [Transaction(k, WITHDRAWAL, INITIATED, a, c, Some(id), None, Some(p))],
                db.ledger, db.logs,
                db.outbox + [OutboxEvent(t, WITHDRAWAL_INITIATED, Some(u), false, 0)])
  {
    WithdrawGuards(db, u, k, a, c, p, linked);
    if WithdrawBody(db, u, k, a, c, p, linked).Ok? { WithdrawWrites(db, u, k, a, c, p, linked); }
  }

  // ---- transfer

  /** Both wallets are there, and what the later guards of a transfer ask of them. */
  predicate BothActive(db: Db, u: UserId, v: UserId)
    requires HasWallet(db, u) && HasWallet(db, v)
  {
    db.wallets[db.owners[u]].status == ACTIVE && db.wallets[db.owners[v]].status == ACTIVE
  }

  predicate BothIn(db: Db, u: UserId, v: UserId, c: Currency)
    requires HasWallet(db, u) && HasWallet(db, v)
  {
    db.wallets[db.owners[u]].currency == c && db.wallets[db.owners[v]].currency == c
  }

  /** Exactly which guard refuses a transfer's database transaction between two users, in the order of the code. */
  lemma {:induction false} TransferGuards(db: Db, u: UserId, v: UserId, k: IdempotencyKey, a: Amount, c: Currency)
    requires ColumnsFit(db) && OwnersConsistent(db) && u != v
    ensures TransferBody(db, u, v, k, a, c) == Err(WalletNotFound) <==> !HasWallet(db, u) || !HasWallet(db, v)
    ensures HasWallet(db, u) && HasWallet(db, v) ==>
              var body, s, r := TransferBody(db, u, v, k, a, c), db.wallets[db.owners[u]], db.wallets[db.owners[v]];
              var open := BothActive(db, u, v) && BothIn(db, u, v, c);
              && (body == Err(WalletNotActive) <==> !BothActive(db, u, v))
              && (body == Err(CurrencyMismatch) <==> BothActive(db, u, v) && !BothIn(db, u, v, c))
              && (body == Err(InsufficientBalance) <==> open && s.available < a)
              && (body == Err(NumericOverflow) <==>
                    open && a <= s.available && 999_999_999_999_999_999 < r.available + a)
              && (body == Err(UniqueViolation) <==>
                    open && a <= s.available && r.available + a <= 999_999_999_999_999_999 && KeyUsed(db, k))
              && (body.Ok? <==>
                    open && a <= s.available && r.available + a <= 999_999_999_999_999_999 && !KeyUsed(db, k))
  {
    if HasWallet(db, u) && HasWallet(db, v) { assert db.owners[u] != db.owners[v]; }
  }

  /** What a transfer writes: sender's available falls, recipient's rises, a SETTLED row, a debit and a credit. */
  lemma {:induction false} TransferWrites(db: Db, u: UserId, v: UserId, k: IdempotencyKey, a: Amount, c: Currency)
    requires OwnersConsistent(db) && TransferBody(db, u, v, k, a, c).Ok?
    ensures HasWallet(db, u) && HasWallet(db, v) && db.owners[u] != db.owners[v]
    ensures var s, r, t := db.owners[u], db.owners[v], |db.txs|;
            var from, to := db.wallets[s], db.wallets[r];
            TransferBody(db, u, v, k, a, c).value == Db(
              db.wallets[s := from.(available := from.available - a)][r := to.(available := to.available + a)],
              db.owners, db.customers,
              db.txs + [Transaction(k, TRANSFER, SETTLED, a, c, Some(s), Some(r), Some(INTERNAL))],
              db.ledger + [LedgerEntry(s, t, DEBIT, a, c, from.available - a),
                LedgerEntry(r, t, CREDIT, a, c, to.available + a)],
              db.logs,
              db.outbox + [OutboxEvent(t, TRANSFER_SETTLED, None, false, 0)])
  {
    assert db.owners[u] != db.owners[v];
  }

  /** transfer to oneself is refused before anything is read; between two users the pre-check comes first. */
  lemma {:induction false} TransferAnswers(db: Db, u: UserId, v: UserId, k: IdempotencyKey, a: Amount, c: Currency)
    requires ColumnsFit(db) && OwnersConsistent(db)
    ensures Perform(db, Transfer(u, v, k, a, c)).1 == Rejected(SelfTransfer) <==> u == v
    ensures u == v ==> Perform(db, Transfer(u, v, k, a, c)).0 == db
    ensures u != v ==>
              && InitiationAnswers(db, Transfer(u, v, k, a, c), k)
              && TransferOutcomeIff(db, u, v, k, a, c, Perform(db, Transfer(u, v, k, a, c)).1)
    ensures Perform(db, Transfer(u, v, k, a, c)).1 == Committed ==>
              var s, r, t := db.owners[u], db.owners[v], |db.txs|;
              var from, to := db.wallets[s], db.wallets[r];
              Perform(db, Transfer(u, v, k, a, c)).0 == Db(
                db.wallets[s := from.(available := from.available - a)][r := to.(available := to.available + a)],
                db.owners, db.customers,
                db.txs + [Transaction(k, TRANSFER, SETTLED, a, c, Some(s), Some(r), Some(INTERNAL))],
                db.ledger
                + [LedgerEntry(s, t, DEBIT, a, c, from.available - a),
                  LedgerEntry(r, t, CREDIT, a, c, to.available + a)],
                db.logs, db.outbox + [OutboxEvent(t, TRANSFER_SETTLED, None, false, 0)])
  {
    if u != v {
      TransferGuards(db, u, v, k, a, c);
      if TransferBody(db, u, v, k, a, c).Ok? { TransferWrites(db, u, v, k, a, c); }
    }
  }

  /** The answers to a transfer between two users of a key that may be new, guard by guard. */
  predicate TransferOutcomeIff(db: Db, u: UserId, v: UserId, k: IdempotencyKey, a: Amount, c: Currency,
                               outcome: Outcome) {
    && (outcome == Rejected(WalletNotFound) <==> !KeyUsed(db, k) && (!HasWallet(db, u) || !HasWallet(db, v)))
    && (HasWallet(db, u) && HasWallet(db, v) ==>
          var s, r := db.wallets[db.owners[u]], db.wallets[db.owners[v]];
          var open := !KeyUsed(db, k) && BothActive(db, u, v) && BothIn(db, u, v, c);
          && (outcome == Rejected(WalletNotActive) <==> !KeyUsed(db, k) && !BothActive(db, u, v))
          && (outcome == Rejected(CurrencyMismatch) <==>
                !KeyUsed(db, k) && BothActive(db, u, v) && !BothIn(db, u, v, c))
          && (outcome == Rejected(InsufficientBalance) <==> open && s.available < a)
          && (outcome == Rejected(NumericOverflow) <==>
                open && a <= s.available && 999_999_999_999_999_999 < r.available + a))
    && (outcome == Committed <==>
          && !KeyUsed(db, k) && HasWallet(db, u) && HasWallet(db, v) && BothActive(db, u, v) && BothIn(db, u, v, c)
          && a <= db.wallets[db.owners[u]].available
          && db.wallets[db.owners[v]].available + a <= 999_999_999_999_999_999)
  }

  // ---- requests as a whole

  /** Told "committed" exactly when one row with the request's key, amount and currency is new; else nothing changed. */
  lemma {:induction false} CommittedIffAppended(db: Db, op: Operation)
    requires ColumnsFit(db) && OwnersConsistent(db) && Callable(db, op)
    requires op.Deposit? || op.Withdraw? || op.Transfer? || op.ConfirmDeposit? || op.CreatePayout?
    ensures var (after, outcome) := Perform(db, op);
            && (outcome == Committed <==>
                  && |after.txs| == |db.txs| + 1 && after.txs[..|db.txs|] == db.txs
                  && after.txs[|db.txs|].key == op.key && after.txs[|db.txs|].amount == op.amount
                  && after.txs[|db.txs|].currency == op.currency)
            && (outcome != Committed ==> after == db)
  {
    match op {
      case Deposit(u, k, a, c) => DepositAnswers(db, u, k, a, c);
      case Withdraw(u, k, a, c) => WithdrawAnswers(db, u, k, a, c);
      case Transfer(u, v, k, a, c) => TransferAnswers(db, u, v, k, a, c);
      case ConfirmDeposit(u, k, a, c, p) => ConfirmDepositAnswers(db, u, k, a, c, p);
      case CreatePayout(u, k, a, c, p, linked) => CreatePayoutAnswers(db, u, k, a, c, p, linked);
    }
  }

  // ---- settle and fail

  lemma {:induction false} NobodyElseHas(db: Db, ctx: TransactionContext, customer: Option<CustomerId>)
    ensures CustomerFree(db, ctx, Settled(customer)) <==>
            (ctx.kind == DEPOSIT && ctx.provider == Some(PAYPAL) && customer.Some? ==>
               forall u | u in db.customers && u != ctx.user :: db.customers[u] != customer.value)
  {
  }

  /** settle: it commits exactly when the row is open, the money fits and the customer id is free. */
  lemma {:induction false} SettleAnswers(db: Db, ctx: TransactionContext, e: EventId, customer: Option<CustomerId>)
    requires Inv(db) && CallableSettlement(db, ctx, e) && ctx.kind != TRANSFER
    ensures HasWallet(db, ctx.user)
    ensures var w := db.wallets[db.owners[ctx.user]];
            Perform(db, Settle(ctx, e, customer)).1 == Committed <==>
              && db.txs[ctx.id].status == INITIATED
              && (ctx.kind == DEPOSIT ==> w.available + ctx.amount <= 999_999_999_999_999_999)
              && (ctx.kind == DEPOSIT && ctx.provider == Some(PAYPAL) && customer.Some? ==>
                    forall u | u in db.customers && u != ctx.user :: db.customers[u] != customer.value)
    ensures Perform(db, Settle(ctx, e, customer)).1 != Committed ==>
              Perform(db, Settle(ctx, e, customer)).1.Rejected? && Perform(db, Settle(ctx, e, customer)).0 == db
  {
    SettlementsPerform(db, Settle(ctx, e, customer));
    SettleBodyIff(db, ctx, e, customer);
  }

  lemma {:induction false} SettleBodyIff(db: Db, ctx: TransactionContext, e: EventId, customer: Option<CustomerId>)
    requires Inv(db) && CallableSettlement(db, ctx, e) && ctx.kind != TRANSFER
    ensures HasWallet(db, ctx.user)
    ensures SettlementBody(db, ctx, e, Settled(customer)).Ok? <==>
              && db.txs[ctx.id].status == INITIATED
              && (ctx.kind == DEPOSIT ==>
                    db.wallets[db.owners[ctx.user]].available + ctx.amount <= 999_999_999_999_999_999)
              && (ctx.kind == DEPOSIT && ctx.provider == Some(PAYPAL) && customer.Some? ==>
                    forall u | u in db.customers && u != ctx.user :: db.customers[u] != customer.value)
  {
    SettlementCommitsIff(db, ctx, e, Settled(customer));
    NobodyElseHas(db, ctx, customer);
    SoundRange(db, db.owners[ctx.user]);
  }

  lemma {:induction false} FailBodyIff(db: Db, ctx: TransactionContext, e: EventId)
    requires Inv(db) && CallableSettlement(db, ctx, e) && ctx.kind != TRANSFER
    ensures HasWallet(db, ctx.user)
    ensures SettlementBody(db, ctx, e, Failed).Ok? <==>
              && db.txs[ctx.id].status == INITIATED
              && (ctx.kind == WITHDRAWAL ==>
                    db.wallets[db.owners[ctx.user]].available + ctx.amount <= 999_999_999_999_999_999)
  {
    SettlementCommitsIff(db, ctx, e, Failed);
    SoundRange(db, db.owners[ctx.user]);
  }

  /** fail: it commits exactly when the row is open and a payout's money fits back. */
  lemma {:induction false} FailAnswers(db: Db, ctx: TransactionContext, e: EventId)
    requires Inv(db) && CallableSettlement(db, ctx, e) && ctx.kind != TRANSFER
    ensures HasWallet(db, ctx.user)
    ensures var w := db.wallets[db.owners[ctx.user]];
            Perform(db, Fail(ctx, e)).1 == Committed <==>
              && db.txs[ctx.id].status == INITIATED
              && (ctx.kind == WITHDRAWAL ==> w.available + ctx.amount <= 999_999_999_999_999_999)
    ensures Perform(db, Fail(ctx, e)).1 != Committed ==>
              Perform(db, Fail(ctx, e)).1.Rejected? && Perform(db, Fail(ctx, e)).0 == db
  {
    SettlementsPerform(db, Fail(ctx, e));
    FailBodyIff(db, ctx, e);
  }

  lemma {:induction false} SoundRange(db: Db, w: WalletId)
    requires Inv(db) && w in db.wallets
    ensures 0 <= db.wallets[w].available && 0 <= db.wallets[w].locked && 0 <= db.wallets[w].pending
  {
    assert WalletSound(db, w);
  }

  /** What a committed settle writes: money, final status, ledger entry, log, delivery mark and customer id. */
  lemma {:induction false} SettleWrites(db: Db, ctx: TransactionContext, e: EventId, customer: Option<CustomerId>)
    requires UniqueCustomers(db) && CallableSettlement(db, ctx, e)
    requires Perform(db, Settle(ctx, e, customer)).1 == Committed
    ensures HasWallet(db, ctx.user) && ctx.kind != TRANSFER
    ensures var id, w, deposit := db.owners[ctx.user], db.wallets[db.owners[ctx.user]], ctx.kind == DEPOSIT;
            Perform(db, Settle(ctx, e, customer)).0 == Db(
              db.wallets[id := if deposit
                               then w.(pending := w.pending - ctx.amount, available := w.available + ctx.amount)
                               else w.(locked := w.locked - ctx.amount)],
              db.owners,
              if deposit && ctx.provider == Some(PAYPAL) && customer.Some?
              then db.customers[ctx.user := customer.value] else db.customers,
              db.txs[ctx.id := db.txs[ctx.id].(status := SETTLED)],
              db.ledger + [if deposit
                           then LedgerEntry(id, ctx.id, CREDIT, ctx.amount, ctx.currency, w.available + ctx.amount)
                           else LedgerEntry(id, ctx.id, DEBIT, ctx.amount, ctx.currency, w.locked - ctx.amount)],
              db.logs + [PaymentLog(ctx.id, ctx.provider.value, SETTLED)],
              db.outbox[e := db.outbox[e].(delivered := true)])
  {
    SettlementsPerform(db, Settle(ctx, e, customer));
    SettlementCloses(db, ctx, e, Settled(customer));
  }

  /** What a committed fail writes: the money back, FAILED, a log and the delivery mark; no ledger entry. */
  lemma {:induction false} FailWrites(db: Db, ctx: TransactionContext, e: EventId)
    requires UniqueCustomers(db) && CallableSettlement(db, ctx, e)
    requires Perform(db, Fail(ctx, e)).1 == Committed
    ensures HasWallet(db, ctx.user) && ctx.kind != TRANSFER
    ensures var id, w := db.owners[ctx.user], db.wallets[db.owners[ctx.user]];
            Perform(db, Fail(ctx, e)).0 == Db(
              db.wallets[id := if ctx.kind == DEPOSIT then w.(pending := w.pending - ctx.amount)
                               else w.(locked := w.locked - ctx.amount, available := w.available + ctx.amount)],
              db.owners, db.customers,
              db.txs[ctx.id := db.txs[ctx.id].(status := FAILED)],
              db.ledger,
              db.logs + [PaymentLog(ctx.id, ctx.provider.value, FAILED)],
              db.outbox[e := db.outbox[e].(delivered := true)])
  {
    SettlementsPerform(db, Fail(ctx, e));
    SettlementCloses(db, ctx, e, Failed);
  }

  // ---- one event of the processor

  function Retried(db: Db, e: EventId): Db
    requires e < |db.outbox|
  {
    db.(outbox := db.outbox[e := db.outbox[e].(retryCount := db.outbox[e].retryCount + 1)])
  }

  /** The event is for a provider: its row, its user and the user's wallet. */
  predicate ForProvider(db: Db, e: EventId, t: TxId, u: UserId, id: WalletId) {
    && e < |db.outbox| && db.outbox[e].tx == t && t < |db.txs| && db.outbox[e].payloadUser == Some(u)
    && db.txs[t].kind != TRANSFER && db.txs[t].provider.Some? && db.txs[t].provider != Some(INTERNAL)
    && u in db.owners && db.owners[u] == id && id in db.wallets
  }

  lemma {:induction false} EventIsForProvider(db: Db, e: EventId)
    requires Inv(db) && e < |db.outbox|
    requires db.outbox[e].eventType == DEPOSIT_INITIATED || db.outbox[e].eventType == WITHDRAWAL_INITIATED
    ensures e < |db.txs| && db.txs[e].kind != TRANSFER
    ensures db.txs[e].provider == Some(INTERNAL)
            || exists u, id :: ForProvider(db, e, e, u, id)
  {
    assert OutboxAgrees(db) && TxWellFormed(db.txs[e], db.wallets.Keys);
    var u := db.outbox[e].payloadUser.value;
    assert IsFor(db, db.outbox[e].payloadUser, db.txs[e]);
    if db.txs[e].provider != Some(INTERNAL) { assert ForProvider(db, e, e, u, db.owners[u]); }
  }

  /** No answer from a provider, or nothing to ask one: one more retry, whatever the row. */
  lemma {:induction false} NoAnswerIsRetried(db: Db, e: EventId, answer: Answer)
    requires e < |db.outbox|
    requires || answer.Throws? || db.outbox[e].payloadUser.None? || |db.txs| <= db.outbox[e].tx
             || db.txs[db.outbox[e].tx].provider.None? || db.txs[db.outbox[e].tx].provider == Some(INTERNAL)
    ensures ProcessEvent(db, e, answer) == Retried(db, e)
  {
  }

  /** Accepted, to be settled by a webhook: delivered, and nothing else. */
  lemma {:induction false} AcceptedIsDelivered(db: Db, e: EventId, t: TxId, u: UserId, id: WalletId,
                                               c: Option<CustomerId>)
    requires ForProvider(db, e, t, u, id)
    ensures ProcessEvent(db, e, Answered(true, true, c))
            == db.(outbox := db.outbox[e := db.outbox[e].(delivered := true)])
  {
  }

  /** A final answer calls settle or fail; if that throws, one more retry. */
  lemma {:induction false} CalledOrRetried(db: Db, e: EventId, t: TxId, u: UserId, id: WalletId, answer: Answer)
    requires ForProvider(db, e, t, u, id) && answer.Answered? && !(answer.success && answer.requiresWebhook)
    ensures var ctx := ContextOf(t, u, db.txs[t]);
            var (after, outcome) := Perform(db, if answer.success then Settle(ctx, e, answer.customer)
              else Fail(ctx, e));
            ProcessEvent(db, e, answer) == if outcome == Committed then after else Retried(db, e)
  {
    var ctx := ContextOf(t, u, db.txs[t]);
    AnsweredDecision(db, e, answer);
    SettlementsPerform(db, Settle(ctx, e, answer.customer));
    SettlementsPerform(db, Fail(ctx, e));
  }

  /** Done: the row becomes SETTLED if it is open, the money fits and the customer id is free; else one more retry. */
  lemma {:induction false} DoneIsSettled(db: Db, e: EventId, t: TxId, u: UserId, id: WalletId, c: Option<CustomerId>)
    requires Inv(db) && ForProvider(db, e, t, u, id)
    ensures var after, row := ProcessEvent(db, e, Answered(true, false, c)), db.txs[t];
            if && row.status == INITIATED
               && (row.kind == DEPOSIT ==> db.wallets[id].available + row.amount <= 999_999_999_999_999_999)
               && (row.kind == DEPOSIT && row.provider == Some(PAYPAL) && c.Some? ==>
                     forall u' | u' in db.customers && u' != u :: db.customers[u'] != c.value)
            then after.txs == db.txs[t := row.(status := SETTLED)]
                 && after.outbox == db.outbox[e := db.outbox[e].(delivered := true)]
            else after == Retried(db, e)
  {
    var ctx := ContextOf(t, u, db.txs[t]);
    OwnerOfEvent(db, e, t, u, id);
    SettleAnswers(db, ctx, e, c);
    CalledOrRetried(db, e, t, u, id, Answered(true, false, c));
    if Perform(db, Settle(ctx, e, c)).1 == Committed { SettleWrites(db, ctx, e, c); }
  }

  /** Refused: the row becomes FAILED if it is open and the money fits back; else one more retry. */
  lemma {:induction false} RefusedIsFailed(db: Db, e: EventId, t: TxId, u: UserId, id: WalletId, webhook: bool,
                                           c: Option<CustomerId>)
    requires Inv(db) && ForProvider(db, e, t, u, id)
    ensures var after, row := ProcessEvent(db, e, Answered(false, webhook, c)), db.txs[t];
            if row.status == INITIATED
               && (row.kind == WITHDRAWAL ==> db.wallets[id].available + row.amount <= 999_999_999_999_999_999)
            then after.txs == db.txs[t := row.(status := FAILED)]
                 && after.outbox == db.outbox[e := db.outbox[e].(delivered := true)]
            else after == Retried(db, e)
  {
    var ctx := ContextOf(t, u, db.txs[t]);
    OwnerOfEvent(db, e, t, u, id);
    FailAnswers(db, ctx, e);
    CalledOrRetried(db, e, t, u, id, Answered(false, webhook, c));
    if Perform(db, Fail(ctx, e)).1 == Committed { FailWrites(db, ctx, e); }
  }

  lemma {:induction false} OwnerOfEvent(db: Db, e: EventId, t: TxId, u: UserId, id: WalletId)
    requires TxsWellFormed(db) && OutboxAgrees(db) && ForProvider(db, e, t, u, id)
    ensures t == e && CallableSettlement(db, ContextOf(t, u, db.txs[t]), e) && Resolvable(db.txs[t].provider)
  {
    OwnContextIsCallable(db, e);
  }
}
