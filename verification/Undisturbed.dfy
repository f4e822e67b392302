/** Run alone, each program does exactly what its operation's closed form says: same state or same exception. */
module Undisturbed {
  import opened Schema
  import opened Operations
  import opened Invariants
  import opened Programs

  lemma {:induction false} Suffix(view: Db, p: Program, q: Program, i: nat)
    requires i <= |q|
    ensures Interpret(view, p + q, |p| + i) == Interpret(view, q, i)
    decreases |q| - i
  {
    if i < |q| {
      assert (p + q)[|p| + i] == q[i];
      match Exec(view, q[i])
      case Err(_) =>
      case Ok(None) => Suffix(view, p, q, i + 1);
      case Ok(Some(x)) => Suffix(Write(view, x), p, q, i + 1);
    }
  }

  /** Running p then q is running p, then q in p's view. */
  lemma {:induction false} Sequential(view: Db, p: Program, q: Program, i: nat)
    requires i <= |p|
    ensures Interpret(view, p + q, i) ==
            match Interpret(view, p, i)
            case Err(e) => Err(e)
            case Ok(v) => Interpret(v, q, 0)
    decreases |p| - i
  {
    if i == |p| {
      Suffix(view, p, q, 0);
    } else {
      assert (p + q)[i] == p[i];
      match Exec(view, p[i])
      case Err(_) =>
      case Ok(None) => Sequential(view, p, q, i + 1);
      case Ok(Some(x)) => Sequential(Write(view, x), p, q, i + 1);
    }
  }

  lemma {:induction false} CheckAlone(db: Db, id: WalletId, c: Currency)
    requires id in db.wallets
    ensures Interpret(db, LockAndCheck(id, c), 0) ==
            if CheckWallet(db.wallets[id], c).Some? then Err(CheckWallet(db.wallets[id], c).value) else Ok(db)
  {
    var p := LockAndCheck(id, c);
    assert Interpret(db, p, 0) == Interpret(db, p, 1);
    if db.wallets[id].status == ACTIVE {
      assert Interpret(db, p, 1) == Interpret(db, p, 2);
      assert db.wallets[id].currency == c ==> Interpret(db, p, 2) == Interpret(db, p, 3);
    }
  }

  /** The entry a buffered ledger insert becomes. */
  function EntryOf(view: Db, s: Statement): LedgerEntry
    requires s.InsertLedger? && s.wallet in view.wallets
  {
    LedgerEntry(s.wallet, if s.of.Some? then s.of.value else LastTx(view), s.direction, s.amount, s.currency,
                Read(view.wallets[s.wallet], s.bucket))
  }

  lemma {:induction false} LedgerAlone(view: Db, p: Program)
    requires |p| <= 2
    requires forall i | 0 <= i < |p| :: p[i].InsertLedger? && p[i].wallet in view.wallets
    ensures Interpret(view, p, 0)
            == Ok(view.(ledger := view.ledger + seq(|p|, i requires 0 <= i < |p| => EntryOf(view, p[i]))))
  {
    var entries := seq(|p|, i requires 0 <= i < |p| => EntryOf(view, p[i]));
    if |p| == 0 {
      assert view.ledger + entries == view.ledger;
    } else {
      var v1 := view.(ledger := view.ledger + [entries[0]]);
      assert Interpret(view, p, 0) == Interpret(v1, p, 1);
      if |p| == 1 {
        assert entries == [entries[0]];
      } else {
        var v2 := v1.(ledger := v1.ledger + [entries[1]]);
        assert Interpret(v1, p, 1) == Interpret(v2, p, 2);
        assert view.ledger + entries == view.ledger + [entries[0]] + [entries[1]];
      }
    }
  }

  lemma {:induction false} OpenAlone(db: Db, row: Transaction, ledger: Program, entries: seq<LedgerEntry>,
                                     ty: EventType, user: Option<UserId>)
    requires |ledger| <= 2 && |entries| == |ledger|
    requires forall i | 0 <= i < |ledger| ::
               && ledger[i].InsertLedger? && ledger[i].wallet in db.wallets
               && entries[i] == EntryOf(db.(txs := db.txs + [row]), ledger[i])
    ensures Interpret(db, OpenProgram(row, ledger, ty, user), 0) == Open(db, row, entries, ty, user)
  {
    var p := [Acquire(KeyIndex(row.key)), InsertTransaction(row)];
    var q := [InsertEvent(ty, user)];
    Sequential(db, p + ledger, q, 0);
    Sequential(db, p, ledger, 0);
    assert Interpret(db, p, 0) == Interpret(db, p, 1);
    if !KeyTaken(db.txs, row.key) {
      var v1 := db.(txs := db.txs + [row]);
      assert Interpret(db, p, 1) == Interpret(v1, p, 2);
      LedgerAlone(v1, ledger);
      var v2 := v1.(ledger := db.ledger + entries);
      assert seq(|ledger|, i requires 0 <= i < |ledger| => EntryOf(v1, ledger[i])) == entries;
      assert Interpret(v1, ledger, 0) == Ok(v2);
      assert Interpret(v2, q, 0) == Interpret(Write(v2, PutEvent(ty, user)), q, 1);
    }
  }

  lemma {:induction false} DepositAlone(db: Db, user: UserId, k: IdempotencyKey, a: Amount, c: Currency, p: Provider)
    requires user in db.owners && db.owners[user] in db.wallets
    ensures Interpret(db, DepositProgram(db.owners[user], user, k, a, c, p), 0) == DepositBody(db, user, k, a, c, p)
  {
    var id := db.owners[user];
    var w := db.wallets[id];
    var moved := Shift(w, 0, 0, a);
    var after := db.(wallets := db.wallets[id := moved]);
    var row := Transaction(k, DEPOSIT, INITIATED, a, c, None, Some(id), Some(p));
    var ledger := if p == INTERNAL then [InsertLedger(id, None, CREDIT, a, c, Pending)] else [];
    var entries := if p == INTERNAL then [LedgerEntry(id, |db.txs|, CREDIT, a, c, moved.pending)] else [];
    var update := [UpdateWallet(id, 0, 0, a)];
    Sequential(db, LockAndCheck(id, c) + update, OpenProgram(row, ledger, DEPOSIT_INITIATED, Some(user)), 0);
    Sequential(db, LockAndCheck(id, c), update, 0);
    CheckAlone(db, id, c);
    assert WalletFits(moved) ==> Interpret(db, update, 0) == Interpret(after, update, 1);
    OpenAlone(after, row, ledger, entries, DEPOSIT_INITIATED, Some(user));
  }

  lemma {:induction false} WithdrawUpdate(db: Db, id: WalletId, a: Amount, linked: bool)
    requires id in db.wallets
    ensures var w := db.wallets[id];
            var moved := Shift(w, 0 - a, a, 0);
            Interpret(db, [AssertFunds(id, a), UpdateWallet(id, 0 - a, a, 0), RequireDestination(linked)], 0) ==
            if w.available < a then Err(InsufficientBalance)
            else if !WalletFits(moved) then Err(NumericOverflow)
            else if !linked then Err(PayoutDestinationMissing)
            else Ok(db.(wallets := db.wallets[id := moved]))
  {
    var p := [AssertFunds(id, a), UpdateWallet(id, 0 - a, a, 0), RequireDestination(linked)];
    var moved := Shift(db.wallets[id], 0 - a, a, 0);
    if a <= db.wallets[id].available {
      assert Interpret(db, p, 0) == Interpret(db, p, 1);
      if WalletFits(moved) {
        var after := db.(wallets := db.wallets[id := moved]);
        assert Interpret(db, p, 1) == Interpret(after, p, 2);
        assert linked ==> Interpret(after, p, 2) == Interpret(after, p, 3);
      }
    }
  }

  lemma {:induction false} WithdrawAlone(db: Db, user: UserId, k: IdempotencyKey, a: Amount, c: Currency, p: Provider,
                                         linked: bool)
    requires user in db.owners && db.owners[user] in db.wallets
    ensures Interpret(db, WithdrawProgram(db.owners[user], user, k, a, c, p, linked), 0)
            == WithdrawBody(db, user, k, a, c, p, linked)
  {
    var id := db.owners[user];
    var moved := Shift(db.wallets[id], 0 - a, a, 0);
    var after := db.(wallets := db.wallets[id := moved]);
    var row := Transaction(k, WITHDRAWAL, INITIATED, a, c, Some(id), None, Some(p));
    var ledger := if p == INTERNAL then [InsertLedger(id, None, DEBIT, a, c, Locked)] else [];
    var entries := if p == INTERNAL then [LedgerEntry(id, |db.txs|, DEBIT, a, c, moved.locked)] else [];
    var update := [AssertFunds(id, a), UpdateWallet(id, 0 - a, a, 0), RequireDestination(linked)];
    Sequential(db, LockAndCheck(id, c) + update, OpenProgram(row, ledger, WITHDRAWAL_INITIATED, Some(user)), 0);
    Sequential(db, LockAndCheck(id, c), update, 0);
    CheckAlone(db, id, c);
    WithdrawUpdate(db, id, a, linked);
    OpenAlone(after, row, ledger, entries, WITHDRAWAL_INITIATED, Some(user));
  }

  lemma {:induction false} TransferGuards(db: Db, s: WalletId, r: WalletId, c: Currency)
    requires s in db.wallets && r in db.wallets
    ensures var from, to := db.wallets[s], db.wallets[r];
            Interpret(db, TransferLocks(s, r) + TransferChecks(s, r, c), 0) ==
            if from.status != ACTIVE || to.status != ACTIVE then Err(WalletNotActive)
            else if from.currency != c || to.currency != c then Err(CurrencyMismatch)
            else Ok(db)
  {
    var locks := TransferLocks(s, r);
    assert Interpret(db, locks, 0) == Interpret(db, locks, 1) == Interpret(db, locks, 2);
    Sequential(db, locks, TransferChecks(s, r, c), 0);
    var p := TransferChecks(s, r, c);
    if db.wallets[s].status == ACTIVE {
      assert Interpret(db, p, 0) == Interpret(db, p, 1);
      if db.wallets[r].status == ACTIVE {
        assert Interpret(db, p, 1) == Interpret(db, p, 2);
        if db.wallets[s].currency == c {
          assert Interpret(db, p, 2) == Interpret(db, p, 3);
          if db.wallets[r].currency == c {
            assert Interpret(db, p, 3) == Interpret(db, p, 4);
          }
        }
      }
    }
  }

  lemma {:induction false} TransferUpdates(db: Db, s: WalletId, r: WalletId, a: Amount)
    requires s in db.wallets && r in db.wallets && s != r
    ensures var debited := Shift(db.wallets[s], 0 - a, 0, 0);
            var credited := Shift(db.wallets[r], a, 0, 0);
            Interpret(db, [AssertFunds(s, a), UpdateWallet(s, 0 - a, 0, 0), UpdateWallet(r, a, 0, 0)], 0) ==
            if db.wallets[s].available < a then Err(InsufficientBalance)
            else if !WalletFits(debited) || !WalletFits(credited) then Err(NumericOverflow)
            else Ok(db.(wallets := db.wallets[s := debited][r := credited]))
  {
    var p := [AssertFunds(s, a), UpdateWallet(s, 0 - a, 0, 0), UpdateWallet(r, a, 0, 0)];
    var debited := Shift(db.wallets[s], 0 - a, 0, 0);
    var credited := Shift(db.wallets[r], a, 0, 0);
    if a <= db.wallets[s].available {
      assert Interpret(db, p, 0) == Interpret(db, p, 1);
      if WalletFits(debited) {
        var v1 := db.(wallets := db.wallets[s := debited]);
        assert Interpret(db, p, 1) == Interpret(v1, p, 2);
        if WalletFits(credited) {
          assert Interpret(v1, p, 2) == Interpret(v1.(wallets := v1.wallets[r := credited]), p, 3);
        }
      }
    }
  }

  lemma {:induction false} TransferAlone(db: Db, u: UserId, v: UserId, k: IdempotencyKey, a: Amount, c: Currency)
    requires OwnersConsistent(db) && u in db.owners && v in db.owners && u != v
    ensures Interpret(db, TransferProgram(db.owners[u], db.owners[v], k, a, c), 0) == TransferBody(db, u, v, k, a, c)
  {
    var s, r := db.owners[u], db.owners[v];
    assert db.wallets[s].userId == u && db.wallets[r].userId == v;
    var debited := Shift(db.wallets[s], 0 - a, 0, 0);
    var credited := Shift(db.wallets[r], a, 0, 0);
    var after := db.(wallets := db.wallets[s := debited][r := credited]);
    var row := Transaction(k, TRANSFER, SETTLED, a, c, Some(s), Some(r), Some(INTERNAL));
    var ledger := [InsertLedger(s, None, DEBIT, a, c, Available), InsertLedger(r, None, CREDIT, a, c, Available)];
    var entries := [LedgerEntry(s, |db.txs|, DEBIT, a, c, debited.available),
                    LedgerEntry(r, |db.txs|, CREDIT, a, c, credited.available)];
    var guards := TransferLocks(s, r) + TransferChecks(s, r, c);
    var updates := [AssertFunds(s, a), UpdateWallet(s, 0 - a, 0, 0), UpdateWallet(r, a, 0, 0)];
    Sequential(db, guards + updates, OpenProgram(row, ledger, TRANSFER_SETTLED, None), 0);
    Sequential(db, guards, updates, 0);
    TransferGuards(db, s, r, c);
    TransferUpdates(db, s, r, a);
    OpenAlone(after, row, ledger, entries, TRANSFER_SETTLED, None);
  }

  /** Payment log and delivery mark. */
  lemma {:induction false} SettlementTail(v: Db, ctx: TransactionContext, event: EventId, status: TransactionStatus)
    ensures Interpret(v, [Acquire(LogIndex(ctx.id)), InsertLog(ctx.id, ctx.provider, status),
                          Acquire(OutboxRow(event)), UpdateDelivered(event)], 0) ==
            if ctx.provider.None? then Err(InvalidArgument)
            else if HasLog(v.logs, ctx.id) then Err(UniqueViolation)
            else if |v.outbox| <= event then Err(RecordNotFound)
            else Ok(v.(logs := v.logs + [PaymentLog(ctx.id, ctx.provider.value, status)],
                       outbox := v.outbox[event := v.outbox[event].(delivered := true)]))
  {
    var p := [Acquire(LogIndex(ctx.id)), InsertLog(ctx.id, ctx.provider, status),
              Acquire(OutboxRow(event)), UpdateDelivered(event)];
    assert Interpret(v, p, 0) == Interpret(v, p, 1);
    if ctx.provider.Some? && !HasLog(v.logs, ctx.id) {
      var v1 := v.(logs := v.logs + [PaymentLog(ctx.id, ctx.provider.value, status)]);
      assert Interpret(v, p, 1) == Interpret(v1, p, 2) == Interpret(v1, p, 3);
      if event < |v.outbox| {
        var v2 := v1.(outbox := v.outbox[event := v.outbox[event].(delivered := true)]);
        assert Interpret(v1, p, 3) == Interpret(v2, p, 4);
      }
    }
  }

  /** Balance move and status stamp. */
  lemma {:induction false} SettlementHead(db: Db, id: WalletId, ctx: TransactionContext, settled: bool,
                                          status: TransactionStatus)
    requires ctx.kind != TRANSFER
    ensures Interpret(db, [Acquire(WalletRow(id)), SettlementUpdate(id, ctx, settled),
                           Acquire(TxRow(ctx.id)), UpdateStatus(ctx.id, status)], 0) ==
            if id !in db.wallets then Err(RecordNotFound)
            else if !WalletFits(SettlementShift(db.wallets[id], ctx, settled)) then Err(NumericOverflow)
            else if |db.txs| <= ctx.id then Err(RecordNotFound)
            else Ok(db.(wallets := db.wallets[id := SettlementShift(db.wallets[id], ctx, settled)],
                        txs := db.txs[ctx.id := db.txs[ctx.id].(status := status)]))
  {
    var p := [Acquire(WalletRow(id)), SettlementUpdate(id, ctx, settled),
              Acquire(TxRow(ctx.id)), UpdateStatus(ctx.id, status)];
    assert Interpret(db, p, 0) == Interpret(db, p, 1);
    if id in db.wallets && WalletFits(SettlementShift(db.wallets[id], ctx, settled)) {
      var v1 := db.(wallets := db.wallets[id := SettlementShift(db.wallets[id], ctx, settled)]);
      assert Interpret(db, p, 1) == Interpret(v1, p, 2) == Interpret(v1, p, 3);
      if ctx.id < |db.txs| {
        var v2 := v1.(txs := db.txs[ctx.id := db.txs[ctx.id].(status := status)]);
        assert Interpret(v1, p, 3) == Interpret(v2, p, 4);
      }
    }
  }

  /** The customer id, kept last. */
  lemma {:induction false} CustomerAlone(db: Db, ctx: TransactionContext, v: Verdict)
    ensures Interpret(db, CustomerProgram(ctx, v), 0) ==
            match NewCustomer(ctx, v)
            case None => Ok(db)
            case Some(c) => SaveCustomer(db, ctx.user, c)
  {
    var p := CustomerProgram(ctx, v);
    if NewCustomer(ctx, v).Some? {
      var c := NewCustomer(ctx, v).value;
      assert Interpret(db, p, 0) == Interpret(db, p, 1);
      if SaveCustomer(db, ctx.user, c).Ok? {
        assert Interpret(db, p, 1) == Interpret(SaveCustomer(db, ctx.user, c).value, p, 2);
      }
    }
  }

  /** Everything a settlement does before it keeps the customer id. */
  lemma {:induction false} CloseAlone(db: Db, id: WalletId, ctx: TransactionContext, event: EventId, settled: bool)
    requires ctx.kind != TRANSFER && SettlementWallet(ctx) == Some(id)
    ensures var status := if settled then SETTLED else FAILED;
            Interpret(db, [Acquire(WalletRow(id)), SettlementUpdate(id, ctx, settled),
                           Acquire(TxRow(ctx.id)), UpdateStatus(ctx.id, status)]
                          + SettlementLedger(id, ctx, settled)
                          + [Acquire(LogIndex(ctx.id)), InsertLog(ctx.id, ctx.provider, status),
                             Acquire(OutboxRow(event)), UpdateDelivered(event)], 0) ==
            if id !in db.wallets then Err(RecordNotFound)
            else
              var moved := SettlementShift(db.wallets[id], ctx, settled);
              if !WalletFits(moved) then Err(NumericOverflow)
              else
                Close(db.(wallets := db.wallets[id := moved]), ctx, event, status,
                      SettlementEntries(moved, id, ctx, settled))
  {
    var status := if settled then SETTLED else FAILED;
    var head := [Acquire(WalletRow(id)), SettlementUpdate(id, ctx, settled),
                 Acquire(TxRow(ctx.id)), UpdateStatus(ctx.id, status)];
    var ledger := SettlementLedger(id, ctx, settled);
    var tail := [Acquire(LogIndex(ctx.id)), InsertLog(ctx.id, ctx.provider, status),
                 Acquire(OutboxRow(event)), UpdateDelivered(event)];
    Sequential(db, head + ledger, tail, 0);
    Sequential(db, head, ledger, 0);
    SettlementHead(db, id, ctx, settled, status);
    if Interpret(db, head, 0).Ok? {
      var v := Interpret(db, head, 0).value;
      LedgerAlone(v, ledger);
      var moved := SettlementShift(db.wallets[id], ctx, settled);
      assert seq(|ledger|, i requires 0 <= i < |ledger| => EntryOf(v, ledger[i]))
        == SettlementEntries(moved, id, ctx, settled);
      SettlementTail(v.(ledger := v.ledger + SettlementEntries(moved, id, ctx, settled)), ctx, event, status);
    }
  }

  lemma {:induction false} SettlementAlone(db: Db, ctx: TransactionContext, event: EventId, v: Verdict)
    requires ctx.kind != TRANSFER && SettlementWallet(ctx).Some?
    ensures Interpret(db, SettlementProgram(SettlementWallet(ctx).value, ctx, event, v), 0)
            == SettlementBody(db, ctx, event, v)
  {
    var id := SettlementWallet(ctx).value;
    var status := if v.Settled? then SETTLED else FAILED;
    var closing := [Acquire(WalletRow(id)), SettlementUpdate(id, ctx, v.Settled?),
                    Acquire(TxRow(ctx.id)), UpdateStatus(ctx.id, status)]
                   + SettlementLedger(id, ctx, v.Settled?)
                   + [Acquire(LogIndex(ctx.id)), InsertLog(ctx.id, ctx.provider, status),
                      Acquire(OutboxRow(event)), UpdateDelivered(event)];
    assert SettlementProgram(id, ctx, event, v) == closing + CustomerProgram(ctx, v);
    Sequential(db, closing, CustomerProgram(ctx, v), 0);
    CloseAlone(db, id, ctx, event, v.Settled?);
    if Interpret(db, closing, 0).Ok? {
      CustomerAlone(Interpret(db, closing, 0).value, ctx, v);
    }
  }

  lemma {:induction false} EventUpdateAlone(db: Db, op: Operation)
    requires op.MarkDelivered? || op.IncrementRetry?
    ensures Interpret(db, ProgramOf(db.owners, op), 0) == Body(db, op)
  {
    var p := ProgramOf(db.owners, op);
    assert Interpret(db, p, 0) == Interpret(db, p, 1);
    if op.event < |db.outbox| {
      assert Interpret(db, p, 1) == Interpret(After(db, op), p, 2);
    }
  }

  /** Every program, run undisturbed, is its operation. */
  lemma {:induction false} ProgramAlone(db: Db, op: Operation)
    requires OwnersConsistent(db)
    ensures Interpret(db, ProgramOf(db.owners, op), 0) == Body(db, op)
  {
    match op {
      case Deposit(u, k, a, c) => if u in db.owners { DepositAlone(db, u, k, a, c, INTERNAL); }
      case ConfirmDeposit(u, k, a, c, p) => if u in db.owners { DepositAlone(db, u, k, a, c, p); }
      case Withdraw(u, k, a, c) => if u in db.owners { WithdrawAlone(db, u, k, a, c, INTERNAL, true); }
      case CreatePayout(u, k, a, c, p, linked) => if u in db.owners { WithdrawAlone(db, u, k, a, c, p, linked); }
      case Transfer(u, v, k, a, c) =>
        if u != v && u in db.owners && v in db.owners { TransferAlone(db, u, v, k, a, c); }
      case Settle(ctx, e, c) =>
        if ctx.kind != TRANSFER && SettlementWallet(ctx).Some? { SettlementAlone(db, ctx, e, Settled(c)); }
      case Fail(ctx, e) =>
        if ctx.kind != TRANSFER && SettlementWallet(ctx).Some? { SettlementAlone(db, ctx, e, Failed); }
      case MarkDelivered(e) => EventUpdateAlone(db, op);
      case IncrementRetry(e) => EventUpdateAlone(db, op);
    }
  }
}
