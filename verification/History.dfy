/** balanceAfter is faithful: each ledger entry records the bucket its history adds up to. */
module History {
  import opened Schema
  import opened Operations
  import opened Invariants
  import opened Runs

  datatype Buckets = Buckets(available: int, locked: int, pending: int)

  function Columns(w: Wallet): Buckets {
    Buckets(w.available, w.locked, w.pending)
  }

  /** One line of the documented balance moves: which wallet, and by how much each bucket changes. */
  datatype Movement = Movement(wallet: WalletId, delta: Buckets)

  /** The documented moves of a committed operation, in order. */
  function Movements(db: Db, op: Operation): seq<Movement> {
    match op
    case Deposit(u, _, a, _) => InOwn(db, u, Buckets(0, 0, a))
    case ConfirmDeposit(u, _, a, _, _) => InOwn(db, u, Buckets(0, 0, a))
    case Withdraw(u, _, a, _) => InOwn(db, u, Buckets(0 - a, a, 0))
    case CreatePayout(u, _, a, _, _, _) => InOwn(db, u, Buckets(0 - a, a, 0))
    case Transfer(u, v, _, a, _) => InOwn(db, u, Buckets(0 - a, 0, 0)) + InOwn(db, v, Buckets(a, 0, 0))
    case Settle(ctx, _, _) =>
      InRow(ctx, if ctx.kind == DEPOSIT then Buckets(ctx.amount, 0, 0 - ctx.amount) else Buckets(0, 0 - ctx.amount, 0))
    case Fail(ctx, _) =>
      InRow(ctx, if ctx.kind == DEPOSIT then Buckets(0, 0, 0 - ctx.amount) else Buckets(ctx.amount, 0 - ctx.amount, 0))
    case MarkDelivered(_) => []
    case IncrementRetry(_) => []
  }

  function InOwn(db: Db, u: UserId, delta: Buckets): seq<Movement> {
    if u in db.owners then [Movement(db.owners[u], delta)] else []
  }

  function InRow(ctx: TransactionContext, delta: Buckets): seq<Movement> {
    if SettlementWallet(ctx).Some? then [Movement(SettlementWallet(ctx).value, delta)] else []
  }

  function Add(b: Buckets, m: Movement, w: WalletId): Buckets {
    if m.wallet != w then b
    else Buckets(b.available + m.delta.available, b.locked + m.delta.locked, b.pending + m.delta.pending)
  }

  /** A wallet's buckets as the moves add up, starting empty. */
  function Fold(journal: seq<Movement>, w: WalletId): Buckets {
    if |journal| == 0 then Buckets(0, 0, 0) else Add(Fold(journal[..|journal| - 1], w), journal[|journal| - 1], w)
  }

  /** Which bucket an entry of this transaction reports. */
  function Reported(t: Transaction, b: Buckets): int {
    match t.kind
    case TRANSFER => b.available
    case WITHDRAWAL => b.locked
    case DEPOSIT => if t.provider == Some(INTERNAL) then b.pending else b.available
  }

  /** A run with its journal; stamps[i] is the journal's length when ledger entry i was committed. */
  datatype Audit = Audit(db: Db, journal: seq<Movement>, stamps: seq<nat>)

  function AuditStep(a: Audit, op: Operation): Audit {
    if Body(a.db, op).Err? then a
    else
      var after := After(a.db, op);
      var journal := a.journal + Movements(a.db, op);
      Audit(after, journal,
            a.stamps + (if |after.ledger| < |a.db.ledger| then []
              else seq(|after.ledger| - |a.db.ledger|, _ => |journal|)))
  }

  function AuditRun(db: Db, ops: seq<Operation>): Audit {
    if |ops| == 0 then Audit(db, [], []) else AuditStep(AuditRun(db, ops[..|ops| - 1]), ops[|ops| - 1])
  }

  predicate Balanced(db: Db, journal: seq<Movement>, w: WalletId)
    requires w in db.wallets
  {
    Fold(journal, w) == Columns(db.wallets[w])
  }

  predicate EntryFaithful(db: Db, journal: seq<Movement>, e: LedgerEntry, stamp: nat) {
    && stamp <= |journal| && e.tx < |db.txs|
    && e.balanceAfter == Reported(db.txs[e.tx], Fold(journal[..stamp], e.wallet))
  }

  predicate AuditSound(a: Audit) {
    && |a.stamps| == |a.db.ledger|
    && (forall w | w in a.db.wallets :: Balanced(a.db, a.journal, w))
    && (forall i | 0 <= i < |a.stamps| :: EntryFaithful(a.db, a.journal, a.db.ledger[i], a.stamps[i]))
  }

  lemma {:induction false} FoldAppend(journal: seq<Movement>, moves: seq<Movement>, w: WalletId)
    requires |moves| <= 2
    ensures |moves| == 0 ==> Fold(journal + moves, w) == Fold(journal, w)
    ensures |moves| == 1 ==> Fold(journal + moves, w) == Add(Fold(journal, w), moves[0], w)
    ensures |moves| == 2 ==> Fold(journal + moves, w) == Add(Add(Fold(journal, w), moves[0], w), moves[1], w)
  {
    if |moves| == 0 {
      assert journal + moves == journal;
    } else {
      assert (journal + moves)[..|journal|] == journal;
      if |moves| == 2 {
        assert (journal + moves)[..|journal| + 1] == journal + [moves[0]];
        assert (journal + [moves[0]])[..|journal|] == journal;
      }
    }
  }

  /** The row updates of a committed operation are its documented moves. */
  lemma {:induction false} StepBalances(db: Db, op: Operation, journal: seq<Movement>, w: WalletId)
    requires OwnersConsistent(db) && Body(db, op).Ok?
    requires w in db.wallets && Balanced(db, journal, w)
    ensures w in After(db, op).wallets && Balanced(After(db, op), journal + Movements(db, op), w)
  {
    var moves := Movements(db, op);
    FoldAppend(journal, moves, w);
    if op.Transfer? {
      TransferBalances(db, op, w);
    } else if |moves| == 1 {
      SingleMove(db, op, w);
    }
  }

  lemma {:induction false} SingleMove(db: Db, op: Operation, w: WalletId)
    requires Body(db, op).Ok? && w in db.wallets && |Movements(db, op)| == 1 && !op.Transfer?
    ensures w in After(db, op).wallets
    ensures Columns(After(db, op).wallets[w]) == Add(Columns(db.wallets[w]), Movements(db, op)[0], w)
  {
    match op {
      case Settle(ctx, e, c) => SettlementMove(db, ctx, e, Settled(c), w);
      case Fail(ctx, e) => SettlementMove(db, ctx, e, Failed, w);
      case Deposit(u, k, a, c) => DepositOpens(db, u, k, a, c, INTERNAL);
      case ConfirmDeposit(u, k, a, c, p) => DepositOpens(db, u, k, a, c, p);
      case Withdraw(u, k, a, c) => WithdrawOpens(db, u, k, a, c, INTERNAL, true);
      case CreatePayout(u, k, a, c, p, linked) => WithdrawOpens(db, u, k, a, c, p, linked);
      case _ =>
    }
  }

  lemma {:induction false} SettlementMove(db: Db, ctx: TransactionContext, e: EventId, v: Verdict, w: WalletId)
    requires SettlementBody(db, ctx, e, v).Ok? && w in db.wallets
    ensures var after := SettlementBody(db, ctx, e, v).value;
            && SettlementWallet(ctx).Some? && SettlementWallet(ctx).value in db.wallets
            && var id := SettlementWallet(ctx).value;
               after.wallets == db.wallets[id := SettlementShift(db.wallets[id], ctx, v.Settled?)]
  {
  }

  lemma {:induction false} TransferBalances(db: Db, op: Operation, w: WalletId)
    requires OwnersConsistent(db) && op.Transfer? && Body(db, op).Ok? && w in db.wallets
    ensures |Movements(db, op)| == 2 && w in After(db, op).wallets
    ensures Columns(After(db, op).wallets[w]) ==
            Add(Add(Columns(db.wallets[w]), Movements(db, op)[0], w), Movements(db, op)[1], w)
  {
    assert db.owners[op.user] != db.owners[op.recipient];
  }

  /** The entries a committed operation writes report a bucket of its new state. */
  lemma {:induction false} NewEntriesReport(db: Db, op: Operation, i: nat)
    requires OwnersConsistent(db) && Callable(db, op) && Body(db, op).Ok?
    requires var after := After(db, op); |db.ledger| <= i < |after.ledger|
    ensures var after := After(db, op);
            var e := after.ledger[i];
            && e.tx < |after.txs| && e.wallet in after.wallets
            && e.balanceAfter == Reported(after.txs[e.tx], Columns(after.wallets[e.wallet]))
  {
    if op.Transfer? {
      assert db.owners[op.user] != db.owners[op.recipient];
    }
  }

  lemma {:induction false} OldEntriesStay(db: Db, op: Operation, journal: seq<Movement>, e: LedgerEntry, stamp: nat,
                                          moves: seq<Movement>)
    requires Extends(db, After(db, op)) && EntryFaithful(db, journal, e, stamp)
    ensures EntryFaithful(After(db, op), journal + moves, e, stamp)
  {
    assert SameColumns(db.txs[e.tx], After(db, op).txs[e.tx]);
    assert (journal + moves)[..stamp] == journal[..stamp];
  }

  lemma {:induction false} AuditStepSound(a: Audit, op: Operation)
    requires OwnersConsistent(a.db) && Callable(a.db, op) && Extends(a.db, After(a.db, op)) && AuditSound(a)
    ensures AuditSound(AuditStep(a, op))
  {
    if Body(a.db, op).Ok? {
      var b := AuditStep(a, op);
      forall w | w in b.db.wallets
        ensures Balanced(b.db, b.journal, w)
      {
        assert Balanced(a.db, a.journal, w);
        StepBalances(a.db, op, a.journal, w);
      }
      forall i | 0 <= i < |b.stamps|
        ensures EntryFaithful(b.db, b.journal, b.db.ledger[i], b.stamps[i])
      {
        if i < |a.stamps| {
          assert EntryFaithful(a.db, a.journal, a.db.ledger[i], a.stamps[i]);
          OldEntriesStay(a.db, op, a.journal, a.db.ledger[i], a.stamps[i], Movements(a.db, op));
        } else {
          NewEntriesReport(a.db, op, i);
          assert b.journal[..|b.journal|] == b.journal;
          assert Balanced(b.db, b.journal, b.db.ledger[i].wallet);
        }
      }
    }
  }

  lemma {:induction false} AuditRunSound(db: Db, ops: seq<Operation>)
    requires Fresh(db) && CallableRun(db, ops)
    ensures AuditRun(db, ops).db == RunTo(db, ops) && AuditSound(AuditRun(db, ops))
  {
    FreshInv(db);
    if |ops| > 0 {
      var most := ops[..|ops| - 1];
      AuditRunSound(db, most);
      RunKeepsInv(db, most);
      StepExtends(RunTo(db, most), ops[|ops| - 1]);
      AuditStepSound(AuditRun(db, most), ops[|ops| - 1]);
    }
  }

  /**
   * In every run, every ledger entry's balanceAfter is what the documented moves up to that entry's commit add up to:
   * the available balance for transfers and provider deposits, the locked one for withdrawals, the pending one
   * for INTERNAL deposits.
   */
  lemma {:induction false} BalanceAfterIsFaithful(db: Db, ops: seq<Operation>, i: nat)
    requires Fresh(db) && CallableRun(db, ops) && i < |RunTo(db, ops).ledger|
    ensures var a := AuditRun(db, ops);
            var e := RunTo(db, ops).ledger[i];
            && i < |a.stamps| && a.stamps[i] <= |a.journal| && e.tx < |RunTo(db, ops).txs|
            && e.balanceAfter == Reported(RunTo(db, ops).txs[e.tx], Fold(a.journal[..a.stamps[i]], e.wallet))
  {
    AuditRunSound(db, ops);
    assert EntryFaithful(RunTo(db, ops), AuditRun(db, ops).journal, RunTo(db, ops).ledger[i],
      AuditRun(db, ops).stamps[i]);
  }
}
