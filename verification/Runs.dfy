/** Safety over whole runs: any sequence of operations, each committing or rolling back. */
module Runs {
  import opened Schema
  import opened Sums
  import opened Operations
  import opened Invariants

  /**
   * The state after running the transactions of `ops` one at a time. Pre-checks may have been stale, so none is made
   * here.
   */
  function RunTo(db: Db, ops: seq<Operation>): Db {
    if |ops| == 0 then db else After(RunTo(db, ops[..|ops| - 1]), ops[|ops| - 1])
  }

  /** Each operation's caller keeps its guarantee in the state it finds. */
  predicate CallableRun(db: Db, ops: seq<Operation>) {
    |ops| == 0 ||
    (CallableRun(db, ops[..|ops| - 1]) && Callable(RunTo(db, ops[..|ops| - 1]), ops[|ops| - 1]))
  }

  lemma {:induction false} RunKeepsInv(db: Db, ops: seq<Operation>)
    requires Inv(db) && CallableRun(db, ops)
    ensures Inv(RunTo(db, ops))
  {
    if |ops| > 0 {
      RunKeepsInv(db, ops[..|ops| - 1]);
      StepKeepsInv(RunTo(db, ops[..|ops| - 1]), ops[|ops| - 1]);
    }
  }

  /**
   * From registration on, whatever happens: the buckets are the table's, the ledger reconciles, nothing is negative.
   */
  lemma {:induction false} BalancesInEveryRun(db: Db, ops: seq<Operation>, w: WalletId)
    requires Fresh(db) && CallableRun(db, ops) && w in RunTo(db, ops).wallets
    ensures var now := RunTo(db, ops);
            var row := now.wallets[w];
            && 0 <= row.available <= MAX_UNITS && 0 <= row.locked <= MAX_UNITS && 0 <= row.pending <= MAX_UNITS
            && row.pending == Sum(now.txs, PendingShare(w))
            && row.locked == Sum(now.txs, LockedShare(w))
            && row.available == Sum(now.txs, AvailableShare(w))
            && row.available + row.locked + row.pending
               == Sum(now.ledger, LedgerShare(w)) + Sum(now.txs, UnpostedShare(w))
  {
    FreshInv(db);
    RunKeepsInv(db, ops);
    assert WalletSound(RunTo(db, ops), w);
  }

  // ---- rows only grow; their immutable columns and final statuses never change

  predicate SameColumns(a: Transaction, b: Transaction) {
    a == b.(status := a.status)
  }

  predicate Extends(db: Db, later: Db) {
    && |db.txs| <= |later.txs| && |db.outbox| <= |later.outbox|
    && db.wallets.Keys == later.wallets.Keys && db.owners == later.owners
    && (forall t | 0 <= t < |db.txs| :: SameColumns(db.txs[t], later.txs[t]))
    && (forall t | 0 <= t < |db.txs| && Closed(db.txs[t]) :: later.txs[t].status == db.txs[t].status)
    && (forall e | 0 <= e < |db.outbox| ::
          later.outbox[e].tx == db.outbox[e].tx && (db.outbox[e].delivered ==> later.outbox[e].delivered)
          && db.outbox[e].retryCount <= later.outbox[e].retryCount)
    && db.ledger <= later.ledger && db.logs <= later.logs
  }

  lemma {:induction false} OpenExtends(db: Db, after: Db, row: Transaction, entries: seq<LedgerEntry>,
                                       user: Option<UserId>)
    requires Opened(db, after, row, entries, user)
    ensures Extends(db, after)
  {
  }

  lemma {:induction false} CloseExtends(db: Db, after: Db, ctx: TransactionContext, event: EventId, v: Verdict)
    requires ClosedBy(db, after, ctx, event, v) && !Closed(db.txs[ctx.id])
    ensures Extends(db, after)
  {
  }

  lemma {:induction false} DepositExtends(db: Db, u: UserId, k: IdempotencyKey, a: Amount, c: Currency, p: Provider)
    requires DepositBody(db, u, k, a, c, p).Ok?
    ensures Extends(db, DepositBody(db, u, k, a, c, p).value)
  {
    DepositOpens(db, u, k, a, c, p);
    OpenExtends(db, DepositBody(db, u, k, a, c, p).value, DepositRow(db, u, k, a, c, p),
      DepositEntries(db, u, a, c, p), Some(u));
  }

  lemma {:induction false} WithdrawExtends(db: Db, u: UserId, k: IdempotencyKey, a: Amount, c: Currency, p: Provider,
                                           linked: bool)
    requires WithdrawBody(db, u, k, a, c, p, linked).Ok?
    ensures Extends(db, WithdrawBody(db, u, k, a, c, p, linked).value)
  {
    WithdrawOpens(db, u, k, a, c, p, linked);
    OpenExtends(db, WithdrawBody(db, u, k, a, c, p, linked).value, WithdrawalRow(db, u, k, a, c, p),
                WithdrawalEntries(db, u, a, c, p), Some(u));
  }

  lemma {:induction false} TransferExtends(db: Db, u: UserId, v: UserId, k: IdempotencyKey, a: Amount, c: Currency)
    requires OwnersConsistent(db) && TransferBody(db, u, v, k, a, c).Ok?
    ensures Extends(db, TransferBody(db, u, v, k, a, c).value)
  {
    TransferOpens(db, u, v, k, a, c);
    var s, r := db.owners[u], db.owners[v];
    OpenExtends(db, TransferBody(db, u, v, k, a, c).value, TransferRow(s, r, k, a, c),
      TransferEntries(db, s, r, a, c), None);
  }

  lemma {:induction false} SettlementExtends(db: Db, ctx: TransactionContext, event: EventId, v: Verdict)
    requires Inv(db) && CallableSettlement(db, ctx, event) && SettlementBody(db, ctx, event, v).Ok?
    ensures Extends(db, SettlementBody(db, ctx, event, v).value)
  {
    SettlementCloses(db, ctx, event, v);
    UnloggedIsInitiated(db, ctx.id);
    CloseExtends(db, SettlementBody(db, ctx, event, v).value, ctx, event, v);
  }

  lemma {:induction false} EventUpdateExtends(db: Db, e: EventId, event: OutboxEvent)
    requires e < |db.outbox| && event.tx == db.outbox[e].tx
    requires (db.outbox[e].delivered ==> event.delivered) && db.outbox[e].retryCount <= event.retryCount
    ensures Extends(db, db.(outbox := db.outbox[e := event]))
  {
  }

  /** Once closed always closed, and no row is ever rewritten or dropped. */
  lemma {:induction false} StepExtends(db: Db, op: Operation)
    requires Inv(db) && Callable(db, op)
    ensures Extends(db, After(db, op))
  {
    if Body(db, op).Ok? {
      match op
      case Deposit(u, k, a, c) => DepositExtends(db, u, k, a, c, INTERNAL);
      case ConfirmDeposit(u, k, a, c, p) => DepositExtends(db, u, k, a, c, p);
      case Withdraw(u, k, a, c) => WithdrawExtends(db, u, k, a, c, INTERNAL, true);
      case CreatePayout(u, k, a, c, p, linked) => WithdrawExtends(db, u, k, a, c, p, linked);
      case Transfer(u, v, k, a, c) => TransferExtends(db, u, v, k, a, c);
      case Settle(ctx, e, c) => SettlementExtends(db, ctx, e, Settled(c));
      case Fail(ctx, e) => SettlementExtends(db, ctx, e, Failed);
      case MarkDelivered(e) => EventUpdateExtends(db, e, After(db, op).outbox[e]);
      case IncrementRetry(e) => EventUpdateExtends(db, e, After(db, op).outbox[e]);
    }
  }

  /** A context read earlier in a run is still callable later: staleness never breaks the caller's guarantee. */
  lemma {:induction false} StaleContextStaysCallable(db: Db, later: Db, op: Operation)
    requires Extends(db, later) && Callable(db, op)
    ensures Callable(later, op)
  {
    match op {
      case Settle(ctx, _, _) => assert SameColumns(db.txs[ctx.id], later.txs[ctx.id]);
      case Fail(ctx, _) => assert SameColumns(db.txs[ctx.id], later.txs[ctx.id]);
      case _ =>
    }
  }

  lemma {:induction false} RunExtends(db: Db, ops: seq<Operation>)
    requires Inv(db) && CallableRun(db, ops)
    ensures Extends(db, RunTo(db, ops))
  {
    if |ops| > 0 {
      var most := ops[..|ops| - 1];
      RunExtends(db, most);
      RunKeepsInv(db, most);
      StepExtends(RunTo(db, most), ops[|ops| - 1]);
      ExtendsTransitive(db, RunTo(db, most), RunTo(db, ops));
    }
  }

  lemma {:induction false} ExtendsTransitive(a: Db, b: Db, c: Db)
    requires Extends(a, b) && Extends(b, c)
    ensures Extends(a, c)
  {
    forall t | 0 <= t < |a.txs|
      ensures SameColumns(a.txs[t], c.txs[t]) && (Closed(a.txs[t]) ==> c.txs[t].status == a.txs[t].status)
    {
      assert SameColumns(a.txs[t], b.txs[t]) && SameColumns(b.txs[t], c.txs[t]);
    }
  }

  // ---- settlement happens at most once

  /** The bucket a settlement raises: available, unless a payout settles (then nothing is raised). */
  predicate RaiseFits(db: Db, ctx: TransactionContext, settled: bool)
    requires SettlementWallet(ctx).Some? && SettlementWallet(ctx).value in db.wallets
  {
    (ctx.kind == DEPOSIT) == settled ==> Fits(db.wallets[SettlementWallet(ctx).value].available + ctx.amount)
  }

  /** The customer id a settlement brings along, if any, is not another user's. */
  predicate CustomerFree(db: Db, ctx: TransactionContext, v: Verdict) {
    NewCustomer(ctx, v).Some? ==> !HeldByAnother(db, ctx.user, NewCustomer(ctx, v).value)
  }

  /**
   * Exactly when settle or fail commits, although neither looks at the status: the row is still INITIATED
   * (its payment-log slot is free), the raised balance fits its column, and a PayPal deposit's customer id is not
   * another user's. The context's status plays no part.
   */
  lemma {:induction false} SettlementCommitsIff(db: Db, ctx: TransactionContext, event: EventId, v: Verdict)
    requires Inv(db) && CallableSettlement(db, ctx, event) && ctx.kind != TRANSFER
    ensures SettlementWallet(ctx).Some? && SettlementWallet(ctx).value in db.wallets
    ensures SettlementBody(db, ctx, event, v).Ok?
            <==> db.txs[ctx.id].status == INITIATED && RaiseFits(db, ctx, v.Settled?) && CustomerFree(db, ctx, v)
    ensures match SettlementBody(db, ctx, event, v)
            case Ok(after) => |after.txs| == |db.txs| && after.txs[ctx.id].status == FinalStatus(v.Settled?)
            case Err(_) => true
  {
    LogAndRangeIff(db, ctx, event, v.Settled?);
    SettlementBodyIff(db, ctx, event, v);
  }

  /** The log slot is free and the moved wallet in range exactly when the row is open and the raise fits. */
  lemma {:induction false} LogAndRangeIff(db: Db, ctx: TransactionContext, event: EventId, settled: bool)
    requires Inv(db) && CallableSettlement(db, ctx, event) && ctx.kind != TRANSFER
    ensures SettlementWallet(ctx).Some? && SettlementWallet(ctx).value in db.wallets
    ensures !HasLog(db.logs, ctx.id)
            && WalletFits(SettlementShift(db.wallets[SettlementWallet(ctx).value], ctx, settled))
            <==> db.txs[ctx.id].status == INITIATED && RaiseFits(db, ctx, settled)
  {
    SettlementHasWallet(db, ctx, event);
    UnloggedIsInitiated(db, ctx.id);
    if db.txs[ctx.id].status == INITIATED {
      OpenRowIsCovered(db, ctx.id);
      OnlyTheRaiseCanOverflow(db.wallets[SettlementWallet(ctx).value], ctx, settled);
    }
  }

  lemma {:induction false} SettlementHasWallet(db: Db, ctx: TransactionContext, event: EventId)
    requires OwnersConsistent(db) && CallableSettlement(db, ctx, event) && ctx.kind != TRANSFER
    ensures SettlementWallet(ctx).Some? && SettlementWallet(ctx).value in db.wallets
    ensures SettlementWallet(ctx) == WalletOf(db.txs[ctx.id])
  {
  }

  /** What the statements of settle and fail check, with only the customer index assumed sound. */
  lemma {:induction false} SettlementBodyIff(db: Db, ctx: TransactionContext, event: EventId, v: Verdict)
    requires UniqueCustomers(db) && CallableSettlement(db, ctx, event) && ctx.kind != TRANSFER
    requires SettlementWallet(ctx).Some? && SettlementWallet(ctx).value in db.wallets
    ensures SettlementBody(db, ctx, event, v).Ok? <==>
            && !HasLog(db.logs, ctx.id)
            && WalletFits(SettlementShift(db.wallets[SettlementWallet(ctx).value], ctx, v.Settled?))
            && CustomerFree(db, ctx, v)
    ensures match SettlementBody(db, ctx, event, v)
            case Ok(after) => |after.txs| == |db.txs| && after.txs[ctx.id].status == FinalStatus(v.Settled?)
            case Err(_) => true
  {
  }

  lemma {:induction false} OnlyTheRaiseCanOverflow(b: Wallet, ctx: TransactionContext, settled: bool)
    requires InRange(b) && ctx.amount <= if ctx.kind == DEPOSIT then b.pending else b.locked
    ensures WalletFits(SettlementShift(b, ctx, settled))
            <==> ((ctx.kind == DEPOSIT) == settled ==> Fits(b.available + ctx.amount))
  {
  }

  /** The bucket that holds an open row's money holds at least its amount. */
  lemma {:induction false} OpenRowIsCovered(db: Db, t: TxId)
    requires Inv(db) && t < |db.txs| && db.txs[t].status == INITIATED && db.txs[t].kind != TRANSFER
    ensures WalletOf(db.txs[t]).Some? && WalletOf(db.txs[t]).value in db.wallets
    ensures var row := db.wallets[WalletOf(db.txs[t]).value];
            InRange(row) && db.txs[t].amount <= if db.txs[t].kind == DEPOSIT then row.pending else row.locked
  {
    assert TxWellFormed(db.txs[t], db.wallets.Keys);
    var w := WalletOf(db.txs[t]).value;
    assert WalletSound(db, w);
    BucketsCoverOpenRows(db, w);
    assert PendingShare(w)(db.txs[t]) <= db.wallets[w].pending;
    assert LockedShare(w)(db.txs[t]) <= db.wallets[w].locked;
  }

  /** settle and fail have no pre-check: they commit or reject. */
  lemma {:induction false} SettlementsPerform(db: Db, op: Operation)
    requires op.Settle? || op.Fail?
    ensures Perform(db, op)
            == (After(db, op), if Body(db, op).Ok? then Committed else Rejected(Body(db, op).error))
  {
  }

  predicate Settles(op: Operation, t: TxId) {
    (op.Settle? || op.Fail?) && op.ctx.id == t
  }

  /** How many settle/fail calls for row `t` committed in the run. */
  function SettlementCount(db: Db, ops: seq<Operation>, t: TxId): nat {
    if |ops| == 0 then 0
    else
      var most := ops[..|ops| - 1];
      var last := ops[|ops| - 1];
      SettlementCount(db, most, t) + (if Settles(last, t) && Body(RunTo(db, most), last).Ok? then 1 else 0)
  }

  function LogCount(db: Db, t: TxId): nat {
    if HasLog(db.logs, t) then 1 else 0
  }

  /** Only a committed settle or fail writes a log, and only where there was none. */
  lemma {:induction false} StepWritesLog(db: Db, op: Operation)
    ensures var logs, logs' := db.logs, After(db, op).logs;
            if (op.Settle? || op.Fail?) && Body(db, op).Ok?
            then !HasLog(logs, op.ctx.id) && |logs'| == |logs| + 1 && logs' == logs + [logs'[|logs|]]
              && logs'[|logs|].tx == op.ctx.id
            else logs' == logs
  {
  }

  lemma {:induction false} StepLogs(db: Db, op: Operation, t: TxId)
    ensures LogCount(After(db, op), t)
            == LogCount(db, t) + (if Settles(op, t) && Body(db, op).Ok? then 1 else 0)
  {
    StepWritesLog(db, op);
    if (op.Settle? || op.Fail?) && Body(db, op).Ok? {
      AppendedLog(db.logs, After(db, op).logs[|db.logs|], t);
    }
  }

  lemma {:induction false} SettlementsAreLogged(db: Db, ops: seq<Operation>, t: TxId)
    ensures SettlementCount(db, ops, t) + LogCount(db, t) == LogCount(RunTo(db, ops), t)
  {
    if |ops| > 0 {
      var most := ops[..|ops| - 1];
      SettlementsAreLogged(db, most, t);
      StepLogs(RunTo(db, most), ops[|ops| - 1], t);
    }
  }

  /**
   * Over any run, with any stale contexts: at most one settlement of `t` commits, and it committed iff `t` is closed
   * now.
   */
  lemma {:induction false} SettledAtMostOnce(db: Db, ops: seq<Operation>, t: TxId)
    requires Fresh(db) && CallableRun(db, ops) && t < |RunTo(db, ops).txs|
    ensures SettlementCount(db, ops, t) <= 1
    ensures SettlementCount(db, ops, t) == 1 <==> Closed(RunTo(db, ops).txs[t])
    ensures forall i | 0 <= i < |RunTo(db, ops).logs| && RunTo(db, ops).logs[i].tx == t ::
              RunTo(db, ops).logs[i].status == RunTo(db, ops).txs[t].status
  {
    FreshInv(db);
    RunKeepsInv(db, ops);
    SettlementsAreLogged(db, ops, t);
    assert LogsAgree(RunTo(db, ops));
  }

  // ---- one transaction per idempotency key

  function KeyCount(db: Db, k: IdempotencyKey): nat {
    if KeyTaken(db.txs, k) then 1 else 0
  }

  predicate Carries(op: Operation, k: IdempotencyKey) {
    HasKey(op) && op.key == k
  }

  /** How many requests carrying `k` committed. */
  function CommitCount(db: Db, ops: seq<Operation>, k: IdempotencyKey): nat {
    if |ops| == 0 then 0
    else
      var most := ops[..|ops| - 1];
      var last := ops[|ops| - 1];
      CommitCount(db, most, k) + (if Carries(last, k) && Body(RunTo(db, most), last).Ok? then 1 else 0)
  }

  predicate SameKeys(a: seq<Transaction>, b: seq<Transaction>) {
    |a| == |b| && forall i | 0 <= i < |a| :: a[i].key == b[i].key
  }

  /** Only a committed request writes a row, and only under a free key. */
  lemma {:induction false} StepWritesRow(db: Db, op: Operation)
    ensures var txs, txs' := db.txs, After(db, op).txs;
            if HasKey(op) && Body(db, op).Ok?
            then !KeyTaken(txs, op.key) && |txs'| == |txs| + 1 && txs' == txs + [txs'[|txs|]]
              && txs'[|txs|].key == op.key
            else SameKeys(txs, txs')
  {
  }

  lemma {:induction false} SameKeysTaken(a: seq<Transaction>, b: seq<Transaction>, k: IdempotencyKey)
    requires SameKeys(a, b)
    ensures KeyTaken(a, k) <==> KeyTaken(b, k)
  {
    if KeyTaken(a, k) {
      var i :| 0 <= i < |a| && a[i].key == k;
      assert b[i].key == k;
    }
  }

  lemma {:induction false} StepKeys(db: Db, op: Operation, k: IdempotencyKey)
    ensures KeyCount(After(db, op), k) == KeyCount(db, k) + (if Carries(op, k) && Body(db, op).Ok? then 1 else 0)
  {
    StepWritesRow(db, op);
    if HasKey(op) && Body(db, op).Ok? {
      AppendedKey(db.txs, After(db, op).txs[|db.txs|], k);
    } else {
      SameKeysTaken(db.txs, After(db, op).txs, k);
    }
  }

  lemma {:induction false} CommitsCreateKeys(db: Db, ops: seq<Operation>, k: IdempotencyKey)
    ensures CommitCount(db, ops, k) + KeyCount(db, k) == KeyCount(RunTo(db, ops), k)
  {
    if |ops| > 0 {
      var most := ops[..|ops| - 1];
      CommitsCreateKeys(db, most, k);
      StepKeys(RunTo(db, most), ops[|ops| - 1], k);
    }
  }

  /** The unique key index rolls a request back whole, however stale its pre-check was. */
  lemma {:induction false} TakenKeyRollsBack(db: Db, op: Operation)
    requires HasKey(op) && KeyTaken(db.txs, op.key)
    ensures Body(db, op).Err? && After(db, op) == db
  {
  }

  /**
   * However many requests carry one key, and however stale their pre-checks: one commits at most, and once the key
   * is taken every other request leaves the database as it found it.
   */
  lemma {:induction false} OneEffectPerKey(db: Db, ops: seq<Operation>, k: IdempotencyKey)
    ensures CommitCount(db, ops, k) <= 1
    ensures CommitCount(db, ops, k) == 1 <==> KeyTaken(RunTo(db, ops).txs, k) && !KeyTaken(db.txs, k)
    ensures forall op | Carries(op, k) && KeyTaken(RunTo(db, ops).txs, k) :: After(RunTo(db, ops), op) == RunTo(db, ops)
  {
    CommitsCreateKeys(db, ops, k);
    var now := RunTo(db, ops);
    forall op | Carries(op, k) && KeyTaken(now.txs, k)
      ensures After(now, op) == now
    {
      TakenKeyRollsBack(now, op);
    }
  }

  lemma {:induction false} KeyFindsItsRow(db: Db, t: TxId)
    requires UniqueKeys(db) && t < |db.txs|
    ensures FindByKey(db.txs, db.txs[t].key) == Some(t)
  {
    assert KeyTaken(db.txs, db.txs[t].key);
  }

  /** A repeated request returns the row the first one created, in whatever state it is by now, and changes nothing. */
  lemma {:induction false} ReplayReturnsTheRow(db: Db, ops: seq<Operation>, op: Operation, t: TxId)
    requires Inv(db) && CallableRun(db, ops)
    requires t < |db.txs| && Carries(op, db.txs[t].key) && !(op.Transfer? && op.user == op.recipient)
    ensures Perform(RunTo(db, ops), op) == (RunTo(db, ops), Replayed(t))
  {
    var now := RunTo(db, ops);
    RunExtends(db, ops);
    RunKeepsInv(db, ops);
    assert SameColumns(db.txs[t], now.txs[t]);
    KeyFindsItsRow(now, t);
  }

  // ---- global conservation

  /** What a row in currency `c` contributes to all wallets together. */
  function Contribution(c: Currency): Transaction -> int {
    (t: Transaction) =>
      if t.currency != c then 0
      else
        match t.kind
        case DEPOSIT => if t.status == INITIATED || t.status == SETTLED then t.amount else 0
        case WITHDRAWAL => if t.status == SETTLED then 0 - t.amount else 0
        case TRANSFER => 0
  }

  function WalletsIn(wallets: map<WalletId, Wallet>, c: Currency): set<WalletId> {
    set w | w in wallets && wallets[w].currency == c
  }

  function WalletTotal(db: Db): nat -> int {
    (w: nat) => if w in db.wallets then db.wallets[w].available + db.wallets[w].locked + db.wallets[w].pending else 0
  }

  function RowTotal(t: Transaction): nat -> int {
    (w: nat) => PendingShare(w)(t) + LockedShare(w)(t) + AvailableShare(w)(t)
  }

  function TableTotal(txs: seq<Transaction>): nat -> int {
    (w: nat) => Sum(txs, PendingShare(w)) + Sum(txs, LockedShare(w)) + Sum(txs, AvailableShare(w))
  }

  /** What a row adds to wallet `w`, all buckets together. */
  lemma {:induction false} RowTotalAt(t: Transaction, wallets: set<WalletId>, w: WalletId)
    requires TxWellFormed(t, wallets)
    ensures RowTotal(t)(w)
            == (if t.receiver == Some(w) then (if t.status == FAILED then 0 else t.amount) else 0)
               - (if t.sender == Some(w) && (t.kind == TRANSFER || t.status == SETTLED) then t.amount else 0)
  {
    assert RowTotal(t)(w) == PendingShare(w)(t) + LockedShare(w)(t) + AvailableShare(w)(t);
  }

  /** The row's wallets are all in `some` or all outside it. */
  predicate Inside(t: Transaction, some: set<WalletId>, inside: bool) {
    (t.sender.Some? ==> (t.sender.value in some) == inside)
      && (t.receiver.Some? ==> (t.receiver.value in some) == inside)
  }

  /**
   * A single row touches at most its own wallets; what it adds over all wallets of its currency is its contribution.
   */
  lemma {:induction false} RowContribution(t: Transaction, wallets: set<WalletId>, some: set<WalletId>, c: Currency)
    requires TxWellFormed(t, wallets) && Inside(t, some, t.currency == c)
    ensures SumSet(some, RowTotal(t)) == Contribution(c)(t)
  {
    forall w: WalletId
      ensures t.sender != Some(w) && t.receiver != Some(w) ==> RowTotal(t)(w) == 0
    {
      RowTotalAt(t, wallets, w);
    }
    var rest := some;
    if t.sender.Some? && t.sender.value in some {
      RowTotalAt(t, wallets, t.sender.value);
      SumSetRemove(rest, t.sender.value, RowTotal(t));
      rest := rest - {t.sender.value};
    }
    if t.receiver.Some? && t.receiver.value in some {
      RowTotalAt(t, wallets, t.receiver.value);
      SumSetRemove(rest, t.receiver.value, RowTotal(t));
      rest := rest - {t.receiver.value};
    }
    SumSetZero(rest, RowTotal(t));
  }

  /** Summing the table wallet by wallet is summing it row by row. */
  lemma {:induction false} ExchangeSums(txs: seq<Transaction>, wallets: set<WalletId>, some: set<WalletId>, c: Currency)
    requires forall t | 0 <= t < |txs| :: TxWellFormed(txs[t], wallets) && Inside(txs[t], some, txs[t].currency == c)
    ensures SumSet(some, TableTotal(txs)) == Sum(txs, Contribution(c))
  {
    if |txs| == 0 {
      SumSetZero(some, TableTotal(txs));
    } else {
      var most, last := txs[..|txs| - 1], txs[|txs| - 1];
      assert forall t | 0 <= t < |most| :: most[t] == txs[t];
      ExchangeSums(most, wallets, some, c);
      RowContribution(last, wallets, some, c);
      SumSetPlus(some, TableTotal(most), RowTotal(last), TableTotal(txs));
    }
  }

  /** Per currency: all money in all its wallets is what was deposited and not failed, less what was paid out. */
  lemma {:induction false} MoneyIsConserved(db: Db, ops: seq<Operation>, c: Currency)
    requires Fresh(db) && CallableRun(db, ops)
    ensures SumSet(WalletsIn(RunTo(db, ops).wallets, c), WalletTotal(RunTo(db, ops)))
            == Sum(RunTo(db, ops).txs, Contribution(c))
  {
    FreshInv(db);
    RunKeepsInv(db, ops);
    TablesHoldTheMoney(RunTo(db, ops), c);
  }

  lemma {:induction false} RowsStayInCurrency(db: Db, c: Currency, t: TxId)
    requires Inv(db) && t < |db.txs|
    ensures TxWellFormed(db.txs[t], db.wallets.Keys)
    ensures Inside(db.txs[t], WalletsIn(db.wallets, c), db.txs[t].currency == c)
  {
    assert InCurrency(db.wallets, db.txs[t].sender, db.txs[t].currency);
    assert InCurrency(db.wallets, db.txs[t].receiver, db.txs[t].currency);
  }

  lemma {:induction false} TablesHoldTheMoney(db: Db, c: Currency)
    requires Inv(db)
    ensures SumSet(WalletsIn(db.wallets, c), WalletTotal(db)) == Sum(db.txs, Contribution(c))
  {
    var some := WalletsIn(db.wallets, c);
    forall t | 0 <= t < |db.txs|
      ensures TxWellFormed(db.txs[t], db.wallets.Keys) && Inside(db.txs[t], some, db.txs[t].currency == c)
    {
      RowsStayInCurrency(db, c, t);
    }
    ExchangeSums(db.txs, db.wallets.Keys, some, c);
    forall w | w in some
      ensures WalletTotal(db)(w) == TableTotal(db.txs)(w)
    {
      assert WalletSound(db, w);
    }
    SumSetEqual(some, WalletTotal(db), TableTotal(db.txs));
  }

  // ---- deposits and withdrawals made with provider INTERNAL

  /** This caller can settle (or fail) row `t` right now. */
  predicate CanClose(db: Db, t: TxId, ctx: TransactionContext, e: EventId, v: Verdict) {
    ctx.id == t && CallableSettlement(db, ctx, e) && SettlementBody(db, ctx, e, v).Ok?
  }

  /**
   * transaction.service.ts documents a second phase for every deposit and withdrawal. An open row can be settled
   * (or failed) in the state at hand exactly when its provider is not INTERNAL and the balance it raises, if any, fits.
   */
  lemma {:induction false} ClosableIff(db: Db, t: TxId, settled: bool)
    requires Inv(db) && t < |db.txs| && db.txs[t].kind != TRANSFER && db.txs[t].status == INITIATED
    ensures WalletOf(db.txs[t]).Some? && WalletOf(db.txs[t]).value in db.wallets
    ensures (exists ctx: TransactionContext, e: EventId, v: Verdict ::
               v.Settled? == settled && CanClose(db, t, ctx, e, v))
            <==> && db.txs[t].provider != Some(INTERNAL)
                 && ((db.txs[t].kind == DEPOSIT) == settled ==>
                       Fits(db.wallets[WalletOf(db.txs[t]).value].available + db.txs[t].amount))
  {
    OpenRowIsCovered(db, t);
    if db.txs[t].provider != Some(INTERNAL) {
      OwnContextCloses(db, t, settled);
    }
    forall ctx: TransactionContext, e: EventId, v: Verdict | v.Settled? == settled && CanClose(db, t, ctx, e, v)
      ensures db.txs[t].provider != Some(INTERNAL)
      ensures (db.txs[t].kind == DEPOSIT) == settled ==>
                Fits(db.wallets[WalletOf(db.txs[t]).value].available + db.txs[t].amount)
    {
      SettlementCommitsIff(db, ctx, e, v);
    }
  }

  /** A row's own columns, its event and its user are a context settle and fail can be called with. */
  lemma {:induction false} OwnContextCloses(db: Db, t: TxId, settled: bool)
    requires Inv(db) && t < |db.txs| && db.txs[t].kind != TRANSFER && db.txs[t].status == INITIATED
    requires db.txs[t].provider != Some(INTERNAL)
    ensures IsFor(db, db.outbox[t].payloadUser, db.txs[t])
    ensures var ctx := ContextOf(t, db.outbox[t].payloadUser.value, db.txs[t]);
            var v := if settled then Settled(None) else Failed;
            && CallableSettlement(db, ctx, t) && SettlementWallet(ctx).Some?
               && SettlementWallet(ctx).value in db.wallets
            && (RaiseFits(db, ctx, settled) ==> CanClose(db, t, ctx, t, v))
  {
    OwnContextIsCallable(db, t);
    var ctx := ContextOf(t, db.outbox[t].payloadUser.value, db.txs[t]);
    SettlementCommitsIff(db, ctx, t, if settled then Settled(None) else Failed);
  }

  lemma {:induction false} OwnContextIsCallable(db: Db, t: TxId)
    requires TxsWellFormed(db) && OutboxAgrees(db) && t < |db.txs| && db.txs[t].kind != TRANSFER
    requires db.txs[t].provider != Some(INTERNAL)
    ensures IsFor(db, db.outbox[t].payloadUser, db.txs[t])
    ensures CallableSettlement(db, ContextOf(t, db.outbox[t].payloadUser.value, db.txs[t]), t)
  {
    assert TxWellFormed(db.txs[t], db.wallets.Keys);
    assert IsFor(db, db.outbox[t].payloadUser, db.txs[t]);
  }

  // ---- PayPal deposits whose customer id is another user's

  /** As long as another user holds the id the provider returns, the settlement is undone, whatever else is in order. */
  lemma {:induction false} TakenCustomerUndoes(db: Db, ctx: TransactionContext, event: EventId, c: CustomerId)
    requires Inv(db) && CallableSettlement(db, ctx, event) && ctx.kind == DEPOSIT && ctx.provider == Some(PAYPAL)
    requires HeldByAnother(db, ctx.user, c)
    ensures Body(db, Settle(ctx, event, Some(c))).Err? && After(db, Settle(ctx, event, Some(c))) == db
  {
    SettlementCommitsIff(db, ctx, event, Settled(Some(c)));
  }

  function PayPalRow(user: UserId): Transaction {
    Transaction(user, DEPOSIT, INITIATED, 5, USD, None, Some(user), Some(PAYPAL))
  }

  function PayPalEvent(user: UserId): OutboxEvent {
    OutboxEvent(user, DEPOSIT_INITIATED, Some(user), false, 0)
  }

  function PayPalContext(user: UserId): TransactionContext {
    ContextOf(user, user, PayPalRow(user))
  }

  /** Users 0 and 1 with a wallet each; the first `n` of them have a PayPal deposit under way. */
  function PayPalDeposits(n: nat): Db {
    Db(map[0 := Wallet(0, USD, ACTIVE, 0, 0, if 0 < n then 5 else 0),
           1 := Wallet(1, USD, ACTIVE, 0, 0, if 1 < n then 5 else 0)],
       map[0 := 0, 1 := 1], map[],
       if n == 0 then [] else if n == 1 then [PayPalRow(0)] else [PayPalRow(0), PayPalRow(1)], [], [],
       if n == 0 then [] else if n == 1 then [PayPalEvent(0)] else [PayPalEvent(0), PayPalEvent(1)])
  }

  lemma {:induction false} PayPalDepositOpens(user: UserId)
    requires user < 2
    ensures After(PayPalDeposits(user), ConfirmDeposit(user, user, 5, USD, PAYPAL)) == PayPalDeposits(user + 1)
  {
    var db := PayPalDeposits(user);
    var op := ConfirmDeposit(user, user, 5, USD, PAYPAL);
    assert Body(db, op) == DepositBody(db, user, user, 5, USD, PAYPAL);
    DepositOpens(db, user, user, 5, USD, PAYPAL);
    assert After(db, op).wallets == PayPalDeposits(user + 1).wallets;
  }

  lemma {:induction false} StepReaches(db: Db, op: Operation, after: Db)
    requires Inv(db) && Callable(db, op) && After(db, op) == after
    ensures Inv(after)
  {
    StepKeepsInv(db, op);
  }

  lemma {:induction false} NobodyDeposited()
    ensures Inv(PayPalDeposits(0))
  {
    assert Fresh(PayPalDeposits(0));
    FreshInv(PayPalDeposits(0));
  }

  /** Both deposits are under way and could be settled: a sound state, reached from registration. */
  lemma {:induction false} TwoPayPalDeposits()
    ensures Inv(PayPalDeposits(2))
  {
    NobodyDeposited();
    PayPalDepositOpens(0);
    StepReaches(PayPalDeposits(0), ConfirmDeposit(0, 0, 5, USD, PAYPAL), PayPalDeposits(1));
    PayPalDepositOpens(1);
    StepReaches(PayPalDeposits(1), ConfirmDeposit(1, 1, 5, USD, PAYPAL), PayPalDeposits(2));
  }

  lemma {:induction false} BothCanSettle(user: UserId)
    requires user < 2
    ensures var db, ctx := PayPalDeposits(2), PayPalContext(user);
            && CallableSettlement(db, ctx, user) && db.txs[user].status == INITIATED
            && user in db.wallets && RaiseFits(db, ctx, true) && !HeldByAnother(db, user, 9)
  {
  }

  /**
   * Of two deposits that bring the same customer id, one settles; that undoes the other, which would settle without
   * it.
   */
  lemma {:induction false} CustomerClash(db: Db, first: TransactionContext, e1: EventId, second: TransactionContext,
                                         e2: EventId,
                                         c: CustomerId)
    requires Inv(db) && CallableSettlement(db, first, e1) && CallableSettlement(db, second, e2)
    requires first.kind == DEPOSIT && first.provider == Some(PAYPAL) && second.kind == DEPOSIT
             && second.provider == Some(PAYPAL)
    requires first.user != second.user && first.id != second.id && !HeldByAnother(db, first.user, c)
    requires db.txs[first.id].status == INITIATED && db.txs[second.id].status == INITIATED
    requires SettlementWallet(first).value in db.wallets && RaiseFits(db, first, true)
    requires SettlementWallet(second).value in db.wallets && RaiseFits(db, second, true)
    ensures Body(db, Settle(first, e1, Some(c))).Ok?
    ensures var after := After(db, Settle(first, e1, Some(c)));
            && |after.txs| == |db.txs| && after.txs[second.id].status == INITIATED
            && After(after, Settle(second, e2, Some(c))) == after && Body(after, Settle(second, e2, Some(c))).Err?
            && Body(after, Settle(second, e2, None)).Ok?
  {
    FirstSettles(db, first, e1, second, e2, c);
    SecondIsUndone(After(db, Settle(first, e1, Some(c))), second, e2, c);
  }

  lemma {:induction false} SecondIsUndone(db: Db, ctx: TransactionContext, e: EventId, c: CustomerId)
    requires Inv(db) && CallableSettlement(db, ctx, e) && ctx.kind == DEPOSIT && ctx.provider == Some(PAYPAL)
    requires db.txs[ctx.id].status == INITIATED && HeldByAnother(db, ctx.user, c)
    requires SettlementWallet(ctx).value in db.wallets && RaiseFits(db, ctx, true)
    ensures After(db, Settle(ctx, e, Some(c))) == db && Body(db, Settle(ctx, e, Some(c))).Err?
    ensures Body(db, Settle(ctx, e, None)).Ok?
  {
    TakenCustomerUndoes(db, ctx, e, c);
    SettlementCommitsIff(db, ctx, e, Settled(None));
  }

  lemma {:induction false} FirstSettles(db: Db, first: TransactionContext, e1: EventId, second: TransactionContext,
                                        e2: EventId,
                                        c: CustomerId)
    requires Inv(db) && CallableSettlement(db, first, e1) && CallableSettlement(db, second, e2)
    requires first.kind == DEPOSIT && first.provider == Some(PAYPAL) && second.kind == DEPOSIT
    requires first.user != second.user && first.id != second.id && !HeldByAnother(db, first.user, c)
    requires db.txs[first.id].status == INITIATED && db.txs[second.id].status == INITIATED
    requires SettlementWallet(first).value in db.wallets && RaiseFits(db, first, true)
    requires SettlementWallet(second).value in db.wallets && RaiseFits(db, second, true)
    ensures Body(db, Settle(first, e1, Some(c))).Ok?
    ensures var after := After(db, Settle(first, e1, Some(c)));
            && Inv(after) && CallableSettlement(after, second, e2) && |after.txs| == |db.txs|
            && after.txs[second.id].status == INITIATED && HeldByAnother(after, second.user, c)
            && SettlementWallet(second).value in after.wallets && RaiseFits(after, second, true)
  {
    FirstCloses(db, first, e1, c);
    var after := After(db, Settle(first, e1, Some(c)));
    StaleContextStaysCallable(db, after, Settle(second, e2, None));
    AfterTheFirst(db, after, first, e1, second, c);
  }

  lemma {:induction false} FirstCloses(db: Db, ctx: TransactionContext, e: EventId, c: CustomerId)
    requires Inv(db) && CallableSettlement(db, ctx, e) && ctx.kind == DEPOSIT && !HeldByAnother(db, ctx.user, c)
    requires db.txs[ctx.id].status == INITIATED && SettlementWallet(ctx).value in db.wallets && RaiseFits(db, ctx, true)
    ensures Body(db, Settle(ctx, e, Some(c))).Ok?
    ensures var after := After(db, Settle(ctx, e, Some(c)));
            Inv(after) && Extends(db, after) && ClosedBy(db, after, ctx, e, Settled(Some(c)))
  {
    SettlementCommitsIff(db, ctx, e, Settled(Some(c)));
    SettlementCloses(db, ctx, e, Settled(Some(c)));
    StepKeepsInv(db, Settle(ctx, e, Some(c)));
    StepExtends(db, Settle(ctx, e, Some(c)));
  }

  lemma {:induction false} AfterTheFirst(db: Db, after: Db, first: TransactionContext, e1: EventId,
                                         second: TransactionContext,
                                         c: CustomerId)
    requires OwnersConsistent(db) && ClosedBy(db, after, first, e1, Settled(Some(c)))
    requires first.kind == DEPOSIT && first.provider == Some(PAYPAL) && first.user != second.user
             && first.id != second.id
    requires second.id < |db.txs| && db.txs[second.id].status == INITIATED && second.kind == DEPOSIT
    requires second.user in db.owners && SettlementWallet(second) == Some(db.owners[second.user])
    requires RaiseFits(db, second, true)
    ensures second.id < |after.txs| && after.txs[second.id].status == INITIATED && HeldByAnother(after, second.user, c)
    ensures SettlementWallet(second).value in after.wallets && RaiseFits(after, second, true)
  {
    assert db.wallets[db.owners[first.user]].userId != db.wallets[db.owners[second.user]].userId;
    assert first.user in after.customers && after.customers[first.user] == c;
  }

  /** The clash happens: users 0 and 1, both deposits open, both answered with customer id 9. */
  lemma {:induction false} CustomerNineClashes()
    ensures var after := After(PayPalDeposits(2), Settle(PayPalContext(1), 1, Some(9)));
            && |after.txs| == 2 && after.txs[0].status == INITIATED
            && Body(after, Settle(PayPalContext(0), 0, Some(9))).Err?
               && Body(after, Settle(PayPalContext(0), 0, None)).Ok?
  {
    TwoPayPalDeposits();
    BothCanSettle(0);
    BothCanSettle(1);
    CustomerClash(PayPalDeposits(2), PayPalContext(1), 1, PayPalContext(0), 0, 9);
  }

  /**
   * An INTERNAL deposit or withdrawal stays INITIATED in every continuation: its money never leaves pending or locked.
   */
  lemma {:induction false} InternalNeverCloses(db: Db, ops: seq<Operation>, t: TxId)
    requires Inv(db) && CallableRun(db, ops)
    requires t < |db.txs| && db.txs[t].provider == Some(INTERNAL) && db.txs[t].kind != TRANSFER
    ensures t < |RunTo(db, ops).txs| && RunTo(db, ops).txs[t] == db.txs[t] && db.txs[t].status == INITIATED
    ensures WalletOf(db.txs[t]).Some? && WalletOf(db.txs[t]).value in RunTo(db, ops).wallets
    ensures var row := RunTo(db, ops).wallets[WalletOf(db.txs[t]).value];
            db.txs[t].amount <= if db.txs[t].kind == DEPOSIT then row.pending else row.locked
  {
    var now := RunTo(db, ops);
    RunKeepsInv(db, ops);
    RunExtends(db, ops);
    assert SameColumns(db.txs[t], now.txs[t]);
    assert TxWellFormed(db.txs[t], db.wallets.Keys) && TxWellFormed(now.txs[t], now.wallets.Keys);
    OpenRowIsCovered(now, t);
  }

  /**
   * From the request on: what a committed deposit() or withdraw() opened is INITIATED in every continuation,
   * and the amount stays in the user's pending or locked bucket.
   */
  lemma {:induction false} InternalRequestStaysOpen(db: Db, op: Operation, ops: seq<Operation>)
    requires Inv(db) && (op.Deposit? || op.Withdraw?) && Body(db, op).Ok? && CallableRun(After(db, op), ops)
    ensures op.user in db.owners && db.owners[op.user] in RunTo(After(db, op), ops).wallets
    ensures var now := RunTo(After(db, op), ops);
            var t := |db.txs|;
            && t < |now.txs| && now.txs[t].key == op.key && now.txs[t].amount == op.amount
               && now.txs[t].status == INITIATED
            && WalletOf(now.txs[t]) == Some(db.owners[op.user])
            && op.amount <= if op.Deposit? then now.wallets[db.owners[op.user]].pending
               else now.wallets[db.owners[op.user]].locked
  {
    StepKeepsInv(db, op);
    match op {
      case Deposit(u, k, a, c) => DepositOpens(db, u, k, a, c, INTERNAL);
      case Withdraw(u, k, a, c) => WithdrawOpens(db, u, k, a, c, INTERNAL, true);
    }
    InternalNeverCloses(After(db, op), ops, |db.txs|);
  }
}
