/** Two-phase locking: statements read and write only what they hold, and every program locks in one global order. */
module Locking {
  import opened Schema
  import opened Operations
  import opened Invariants
  import opened Programs

  function Rank(r: Resource): (nat, nat) {
    match r
    case WalletRow(w) => (0, w)
    case KeyIndex(k) => (1, k)
    case TxRow(t) => (2, t)
    case LogIndex(t) => (3, t)
    case OutboxRow(e) => (4, e)
    case CustomerIndex(c) => (5, c)
  }

  /** The global lock order: wallets by id, then key index, transaction row, log index, outbox row, customer index. */
  predicate Before(a: Resource, b: Resource) {
    Rank(a).0 < Rank(b).0 || (Rank(a).0 == Rank(b).0 && Rank(a).1 < Rank(b).1)
  }

  /** The locks taken by the first n statements; they are kept to the end. */
  function Held(p: Program, n: nat): set<Resource>
    requires n <= |p|
  {
    set i | 0 <= i < n && p[i].Acquire? :: p[i].r
  }

  /**
   * What keeping a customer id touches: its place in the index, and the user's wallet, whose lock guards the column.
   */
  function CustomerColumn(owners: map<UserId, WalletId>, u: UserId, c: CustomerId): set<Resource> {
    {CustomerIndex(c)} + (if u in owners then {WalletRow(owners[u])} else {})
  }

  /** What a statement reads or writes. */
  function Footprint(owners: map<UserId, WalletId>, s: Statement): set<Resource> {
    match s
    case Acquire(_) => {}
    case Refuse(_) => {}
    case AssertActive(w) => {WalletRow(w)}
    case AssertCurrency(w, _) => {WalletRow(w)}
    case AssertFunds(w, _) => {WalletRow(w)}
    case UpdateWallet(w, _, _, _) => {WalletRow(w)}
    case RequireDestination(_) => {}
    case InsertTransaction(row) => {KeyIndex(row.key)}
    case InsertLedger(w, _, _, _, _, _) => {WalletRow(w)}
    case InsertEvent(_, _) => {}
    case UpdateStatus(t, _) => {TxRow(t)}
    case InsertLog(t, _, _) => {LogIndex(t)}
    case UpdateDelivered(e) => {OutboxRow(e)}
    case UpdateRetry(e) => {OutboxRow(e)}
    case KeepCustomer(u, c) => CustomerColumn(owners, u, c)
  }

  function Touched(owners: map<UserId, WalletId>, x: RowWrite): set<Resource> {
    match x
    case PutWallet(w, _) => {WalletRow(w)}
    case PutTransaction(t) => {KeyIndex(t.key)}
    case PutStatus(t, _) => {TxRow(t)}
    case PutLedger(_, _, _, _, _, _) => {}
    case PutLog(log) => {LogIndex(log.tx)}
    case PutEvent(_, _) => {}
    case PutDelivered(e) => {OutboxRow(e)}
    case PutRetry(e) => {OutboxRow(e)}
    case PutCustomer(u, c) => CustomerColumn(owners, u, c)
  }

  predicate Covered(owners: map<UserId, WalletId>, s: Statement, held: set<Resource>) {
    Footprint(owners, s) <= held && (s.KeepCustomer? ==> s.holder in owners)
  }

  predicate LocksBeforeUse(owners: map<UserId, WalletId>, p: Program) {
    forall i | 0 <= i < |p| :: Covered(owners, p[i], Held(p, i))
  }

  predicate LocksInOrder(p: Program) {
    forall i, j | 0 <= i < j < |p| && p[i].Acquire? && p[j].Acquire? :: Before(p[i].r, p[j].r)
  }

  predicate Disciplined(owners: map<UserId, WalletId>, p: Program) {
    LocksBeforeUse(owners, p) && LocksInOrder(p)
  }

  // ---- what another transaction's commit can change

  function CustomerOf(db: Db, u: UserId): Option<CustomerId> {
    if u in db.customers then Some(db.customers[u]) else None
  }

  /**
   * For whoever holds `r` locked, b is as good as a: the row is the same, the key or log is taken in both or in
   * neither, and nobody has taken the customer id (somebody may have given it up).
   */
  predicate AgreeOn(a: Db, b: Db, r: Resource) {
    match r
    case WalletRow(w) =>
      && (w in a.wallets <==> w in b.wallets) && (w in a.wallets ==> a.wallets[w] == b.wallets[w])
      && (forall u | u in a.owners && a.owners[u] == w :: CustomerOf(a, u) == CustomerOf(b, u))
    case KeyIndex(k) => KeyTaken(a.txs, k) <==> KeyTaken(b.txs, k)
    case TxRow(t) => t < |a.txs| && t < |b.txs| && a.txs[t] == b.txs[t]
    case LogIndex(t) => HasLog(a.logs, t) <==> HasLog(b.logs, t)
    case OutboxRow(e) => e < |a.outbox| && e < |b.outbox| && a.outbox[e] == b.outbox[e]
    case CustomerIndex(c) => forall u | u in b.customers && CustomerOf(b, u) == Some(c) :: CustomerOf(a, u) == Some(c)
  }

  predicate Agree(a: Db, b: Db, held: set<Resource>) {
    forall r | r in held :: AgreeOn(a, b, r)
  }

  /** The rows a lock names exist. */
  predicate Exists(db: Db, r: Resource) {
    match r
    case TxRow(t) => t < |db.txs|
    case OutboxRow(e) => e < |db.outbox|
    case _ => true
  }

  lemma {:induction false} KeepReadsFootprint(a: Db, b: Db, u: UserId, c: CustomerId)
    requires a.owners == b.owners && u in a.owners && Agree(a, b, CustomerColumn(a.owners, u, c))
    requires Exec(a, KeepCustomer(u, c)).Ok?
    ensures Exec(a, KeepCustomer(u, c)) == Exec(b, KeepCustomer(u, c))
  {
    assert AgreeOn(a, b, WalletRow(a.owners[u])) && AgreeOn(a, b, CustomerIndex(c));
    assert CustomerOf(a, u) == CustomerOf(b, u);
    if HeldByAnother(b, u, c) {
      var other :| other in b.customers && other != u && b.customers[other] == c;
      assert CustomerOf(b, other) == Some(c);
    }
  }

  lemma {:induction false} ExecReadsFootprint(a: Db, b: Db, s: Statement, held: set<Resource>)
    requires a.owners == b.owners && Covered(a.owners, s, held) && Agree(a, b, held) && Exec(a, s).Ok?
    ensures Exec(a, s) == Exec(b, s)
  {
    if s.KeepCustomer? {
      KeepReadsFootprint(a, b, s.holder, s.customer);
    } else if Footprint(a.owners, s) != {} {
      var r :| Footprint(a.owners, s) == {r};
      assert AgreeOn(a, b, r);
    }
  }

  lemma {:induction false} StampedKeys(txs: seq<Transaction>, t: TxId, s: TransactionStatus, k: IdempotencyKey)
    requires t < |txs|
    ensures KeyTaken(txs[t := txs[t].(status := s)], k) <==> KeyTaken(txs, k)
  {
    var after := txs[t := txs[t].(status := s)];
    assert forall i | 0 <= i < |txs| :: after[i].key == txs[i].key;
    if KeyTaken(txs, k) {
      var i :| 0 <= i < |txs| && txs[i].key == k;
      assert after[i].key == k;
    }
  }

  lemma {:induction false} WriteKeepsKey(a: Db, b: Db, x: RowWrite, k: IdempotencyKey)
    requires KeyTaken(a.txs, k) <==> KeyTaken(b.txs, k)
    ensures KeyTaken(Write(a, x).txs, k) <==> KeyTaken(Write(b, x).txs, k)
  {
    match x {
      case PutTransaction(t) => AppendedKey(a.txs, t, k); AppendedKey(b.txs, t, k);
      case PutStatus(t, s) =>
        if t < |a.txs| { StampedKeys(a.txs, t, s, k); }
        if t < |b.txs| { StampedKeys(b.txs, t, s, k); }
      case _ =>
    }
  }

  lemma {:induction false} WriteKeepsLog(a: Db, b: Db, x: RowWrite, t: TxId)
    requires HasLog(a.logs, t) <==> HasLog(b.logs, t)
    ensures HasLog(Write(a, x).logs, t) <==> HasLog(Write(b, x).logs, t)
  {
    if x.PutLog? {
      AppendedLog(a.logs, x.log, t);
      AppendedLog(b.logs, x.log, t);
    }
  }

  lemma {:induction false} WriteKeepsCustomer(a: Db, b: Db, x: RowWrite, c: CustomerId)
    requires AgreeOn(a, b, CustomerIndex(c))
    ensures AgreeOn(Write(a, x), Write(b, x), CustomerIndex(c))
  {
    forall u | u in Write(b, x).customers && CustomerOf(Write(b, x), u) == Some(c)
      ensures CustomerOf(Write(a, x), u) == Some(c)
    {
      assert CustomerOf(b, u) == Some(c) ==> CustomerOf(a, u) == Some(c);
    }
  }

  lemma {:induction false} WriteKeepsWallet(a: Db, b: Db, x: RowWrite, w: WalletId)
    requires AgreeOn(a, b, WalletRow(w))
    ensures AgreeOn(Write(a, x), Write(b, x), WalletRow(w))
  {
    if x.PutWallet? || x.PutCustomer? {
      forall u | u in a.owners && a.owners[u] == w
        ensures CustomerOf(Write(a, x), u) == CustomerOf(Write(b, x), u)
      {
        assert CustomerOf(a, u) == CustomerOf(b, u);
      }
    } else {
      WriteKeepsColumns(a, x);
      WriteKeepsColumns(b, x);
    }
  }

  lemma {:induction false} WriteKeepsColumns(db: Db, x: RowWrite)
    requires !x.PutWallet? && !x.PutCustomer?
    ensures Write(db, x).wallets == db.wallets && Write(db, x).customers == db.customers
            && Write(db, x).owners == db.owners
  {
  }

  lemma {:induction false} WriteKeepsTx(a: Db, b: Db, x: RowWrite, t: TxId)
    requires AgreeOn(a, b, TxRow(t))
    ensures AgreeOn(Write(a, x), Write(b, x), TxRow(t))
  {
    if !x.PutTransaction? && !x.PutStatus? {
      WriteKeepsTable(a, x);
      WriteKeepsTable(b, x);
    }
  }

  lemma {:induction false} WriteKeepsTable(db: Db, x: RowWrite)
    ensures !x.PutTransaction? && !x.PutStatus? ==> Write(db, x).txs == db.txs
    ensures !x.PutEvent? && !x.PutDelivered? && !x.PutRetry? ==> Write(db, x).outbox == db.outbox
  {
  }

  lemma {:induction false} WriteKeepsEvent(a: Db, b: Db, x: RowWrite, e: EventId)
    requires AgreeOn(a, b, OutboxRow(e))
    ensures AgreeOn(Write(a, x), Write(b, x), OutboxRow(e))
  {
    if !x.PutEvent? && !x.PutDelivered? && !x.PutRetry? {
      WriteKeepsTable(a, x);
      WriteKeepsTable(b, x);
    }
  }

  lemma {:induction false} WriteKeepsAgreement(a: Db, b: Db, x: RowWrite, r: Resource)
    requires AgreeOn(a, b, r)
    ensures AgreeOn(Write(a, x), Write(b, x), r)
  {
    match r {
      case KeyIndex(k) => WriteKeepsKey(a, b, x, k);
      case LogIndex(t) => WriteKeepsLog(a, b, x, t);
      case CustomerIndex(c) => WriteKeepsCustomer(a, b, x, c);
      case WalletRow(w) => WriteKeepsWallet(a, b, x, w);
      case TxRow(t) => WriteKeepsTx(a, b, x, t);
      case OutboxRow(e) => WriteKeepsEvent(a, b, x, e);
    }
  }

  /** A write leaves every other resource as it was. */
  lemma {:induction false} WriteStaysInside(db: Db, x: RowWrite, r: Resource)
    requires r !in Touched(db.owners, x) && Exists(db, r)
    ensures AgreeOn(db, Write(db, x), r) && Exists(Write(db, x), r)
  {
    match r {
      case KeyIndex(k) =>
        if x.PutTransaction? {
          AppendedKey(db.txs, x.tx, k);
        } else if x.PutStatus? && x.id < |db.txs| {
          StampedKeys(db.txs, x.id, x.status, k);
        }
      case LogIndex(t) => if x.PutLog? { AppendedLog(db.logs, x.log, t); }
      case WalletRow(w) => if !x.PutWallet? && !x.PutCustomer? { WriteKeepsColumns(db, x); }
      case CustomerIndex(c) => if !x.PutWallet? && !x.PutCustomer? { WriteKeepsColumns(db, x); }
      case _ => WriteSparesRows(db, x, r);
    }
  }

  lemma {:induction false} WriteSparesRows(db: Db, x: RowWrite, r: Resource)
    requires (r.TxRow? || r.OutboxRow?) && r !in Touched(db.owners, x) && Exists(db, r)
    ensures AgreeOn(db, Write(db, x), r) && Exists(Write(db, x), r)
  {
  }

  lemma {:induction false} ApplyKeepsAgreement(a: Db, b: Db, buffer: seq<RowWrite>, held: set<Resource>)
    requires Agree(a, b, held)
    ensures Agree(Apply(a, buffer), Apply(b, buffer), held)
  {
    if |buffer| > 0 {
      var most := buffer[..|buffer| - 1];
      ApplyKeepsAgreement(a, b, most, held);
      forall r | r in held
        ensures AgreeOn(Apply(a, buffer), Apply(b, buffer), r)
      {
        WriteKeepsAgreement(Apply(a, most), Apply(b, most), buffer[|buffer| - 1], r);
      }
    }
  }

  predicate TouchesOnly(owners: map<UserId, WalletId>, buffer: seq<RowWrite>, held: set<Resource>) {
    forall i | 0 <= i < |buffer| :: Touched(owners, buffer[i]) <= held
  }

  lemma {:induction false} ApplyKeepsOwners(db: Db, buffer: seq<RowWrite>)
    ensures Apply(db, buffer).owners == db.owners
  {
    if |buffer| > 0 { ApplyKeepsOwners(db, buffer[..|buffer| - 1]); }
  }

  lemma {:induction false} AgreementIsTransitive(a: Db, b: Db, c: Db, r: Resource)
    requires a.owners == b.owners && AgreeOn(a, b, r) && AgreeOn(b, c, r)
    ensures AgreeOn(a, c, r)
  {
  }

  /** Committing a buffer changes nothing outside the locks it was made under. */
  lemma {:induction false} ApplyStaysInside(db: Db, buffer: seq<RowWrite>, held: set<Resource>, r: Resource)
    requires TouchesOnly(db.owners, buffer, held) && r !in held && Exists(db, r)
    ensures AgreeOn(db, Apply(db, buffer), r) && Exists(Apply(db, buffer), r)
  {
    if |buffer| > 0 {
      var most := buffer[..|buffer| - 1];
      assert forall i | 0 <= i < |most| :: most[i] == buffer[i];
      ApplyStaysInside(db, most, held, r);
      ApplyKeepsOwners(db, most);
      WriteStaysInside(Apply(db, most), buffer[|buffer| - 1], r);
      AgreementIsTransitive(db, Apply(db, most), Apply(db, buffer), r);
    }
  }

  lemma {:induction false} HeldGrows(p: Program, m: nat, n: nat)
    requires m <= n <= |p|
    ensures Held(p, m) <= Held(p, n)
  {
  }

  /** A prefix of a program that went well depends on nothing but the resources it holds. */
  lemma {:induction false} RunDependsOnHeld(a: Db, b: Db, p: Program, n: nat)
    requires n <= |p| && a.owners == b.owners && LocksBeforeUse(a.owners, p) && Agree(a, b, Held(p, n))
    requires Run(a, p, n).Ok?
    ensures Run(a, p, n) == Run(b, p, n)
  {
    if n > 0 {
      HeldGrows(p, n - 1, n);
      RunDependsOnHeld(a, b, p, n - 1);
      var buffer := Run(a, p, n - 1).value;
      ApplyKeepsAgreement(a, b, buffer, Held(p, n));
      ApplyKeepsOwners(a, buffer);
      ApplyKeepsOwners(b, buffer);
      assert Covered(a.owners, p[n - 1], Held(p, n));
      ExecReadsFootprint(Apply(a, buffer), Apply(b, buffer), p[n - 1], Held(p, n));
    }
  }

  lemma {:induction false} ExecTouchesFootprint(view: Db, s: Statement)
    requires Exec(view, s).Ok? && Exec(view, s).value.Some?
    ensures Touched(view.owners, Exec(view, s).value.value) <= Footprint(view.owners, s)
  {
  }

  /** And writes nothing but the resources it holds. */
  lemma {:induction false} RunTouchesHeld(db: Db, p: Program, n: nat)
    requires n <= |p| && LocksBeforeUse(db.owners, p) && Run(db, p, n).Ok?
    ensures TouchesOnly(db.owners, Run(db, p, n).value, Held(p, n))
  {
    if n > 0 {
      HeldGrows(p, n - 1, n);
      RunTouchesHeld(db, p, n - 1);
      var buffer := Run(db, p, n - 1).value;
      var x := Exec(Apply(db, buffer), p[n - 1]).value;
      ApplyKeepsOwners(db, buffer);
      assert Covered(db.owners, p[n - 1], Held(p, n - 1));
      if x.Some? {
        ExecTouchesFootprint(Apply(db, buffer), p[n - 1]);
      }
    }
  }

  // ---- every operation is disciplined

  lemma {:induction false} UsesHeld(p: Program, i: nat, j: nat, r: Resource)
    requires j < i <= |p| && p[j] == Acquire(r)
    ensures r in Held(p, i)
  {
  }

  lemma {:induction false} DepositDisciplined(owners: map<UserId, WalletId>, id: WalletId, u: UserId, k: IdempotencyKey,
                                              a: Amount, c: Currency,
                                              p: Provider)
    ensures Disciplined(owners, DepositProgram(id, u, k, a, c, p))
  {
    var prog := DepositProgram(id, u, k, a, c, p);
    forall i | 0 <= i < |prog|
      ensures Covered(owners, prog[i], Held(prog, i))
    {
      if 0 < i { UsesHeld(prog, i, 0, WalletRow(id)); }
      if 4 < i { UsesHeld(prog, i, 4, KeyIndex(k)); }
    }
  }

  lemma {:induction false} WithdrawDisciplined(owners: map<UserId, WalletId>, id: WalletId, u: UserId,
                                               k: IdempotencyKey, a: Amount, c: Currency,
                                               p: Provider, linked: bool)
    ensures Disciplined(owners, WithdrawProgram(id, u, k, a, c, p, linked))
  {
    var prog := WithdrawProgram(id, u, k, a, c, p, linked);
    forall i | 0 <= i < |prog|
      ensures Covered(owners, prog[i], Held(prog, i))
    {
      if 0 < i { UsesHeld(prog, i, 0, WalletRow(id)); }
      if 6 < i { UsesHeld(prog, i, 6, KeyIndex(k)); }
    }
  }

  /** transfer locks the lower wallet id first, whoever sends. */
  lemma {:induction false} TransferDisciplined(owners: map<UserId, WalletId>, s: WalletId, r: WalletId,
                                               k: IdempotencyKey, a: Amount, c: Currency)
    requires s != r
    ensures Disciplined(owners, TransferProgram(s, r, k, a, c))
  {
    var prog := TransferProgram(s, r, k, a, c);
    forall i | 0 <= i < |prog|
      ensures Covered(owners, prog[i], Held(prog, i))
    {
      if 1 < i {
        UsesHeld(prog, i, 0, WalletRow(if s < r then s else r));
        UsesHeld(prog, i, 1, WalletRow(if s < r then r else s));
      }
      if 9 < i { UsesHeld(prog, i, 9, KeyIndex(k)); }
    }
  }

  lemma {:induction false} SettlementLocksFirst(owners: map<UserId, WalletId>, id: WalletId, ctx: TransactionContext,
                                                e: EventId,
                                                v: Verdict)
    requires NewCustomer(ctx, v).Some? ==> ctx.user in owners && owners[ctx.user] == id
    ensures LocksBeforeUse(owners, SettlementProgram(id, ctx, e, v))
  {
    var prog := SettlementProgram(id, ctx, e, v);
    var n := if v.Settled? then 5 else 4;
    forall i | 0 <= i < |prog|
      ensures Covered(owners, prog[i], Held(prog, i))
    {
      if 0 < i { UsesHeld(prog, i, 0, WalletRow(id)); }
      if 2 < i { UsesHeld(prog, i, 2, TxRow(ctx.id)); }
      if n < i { UsesHeld(prog, i, n, LogIndex(ctx.id)); }
      if n + 2 < i { UsesHeld(prog, i, n + 2, OutboxRow(e)); }
      if n + 4 < i { UsesHeld(prog, i, n + 4, CustomerIndex(NewCustomer(ctx, v).value)); }
    }
  }

  lemma {:induction false} SettlementLocksInOrder(id: WalletId, ctx: TransactionContext, e: EventId, v: Verdict)
    ensures LocksInOrder(SettlementProgram(id, ctx, e, v))
  {
    var prog := SettlementProgram(id, ctx, e, v);
    var n := if v.Settled? then 5 else 4;
    assert forall i | 0 <= i < |prog| && prog[i].Acquire? :: i == 0 || i == 2 || i == n || i == n + 2 || i == n + 4;
  }

  lemma {:induction false} SettlementDisciplined(owners: map<UserId, WalletId>, id: WalletId, ctx: TransactionContext,
                                                 e: EventId,
                                                 v: Verdict)
    requires NewCustomer(ctx, v).Some? ==> ctx.user in owners && owners[ctx.user] == id
    ensures Disciplined(owners, SettlementProgram(id, ctx, e, v))
  {
    SettlementLocksFirst(owners, id, ctx, e, v);
    SettlementLocksInOrder(id, ctx, e, v);
  }

  lemma {:induction false} EventUpdateDisciplined(owners: map<UserId, WalletId>, op: Operation)
    requires op.MarkDelivered? || op.IncrementRetry?
    ensures Disciplined(owners, ProgramOf(owners, op))
  {
    UsesHeld(ProgramOf(owners, op), 1, 0, OutboxRow(op.event));
  }

  lemma {:induction false} CloseDisciplined(db: Db, ctx: TransactionContext, e: EventId, v: Verdict)
    requires CallableSettlement(db, ctx, e)
    ensures Disciplined(db.owners, SettleOrFailProgram(ctx, e, v))
  {
    if ctx.kind != TRANSFER && SettlementWallet(ctx).Some? {
      SettlementDisciplined(db.owners, SettlementWallet(ctx).value, ctx, e, v);
    }
  }

  /** Every operation locks what it uses, in the one global order. */
  lemma {:induction false} ProgramsAreDisciplined(db: Db, op: Operation)
    requires OwnersConsistent(db) && Callable(db, op)
    ensures Disciplined(db.owners, ProgramOf(db.owners, op))
  {
    match op {
      case Deposit(u, k, a,
        c) => if u in db.owners { DepositDisciplined(db.owners, db.owners[u], u, k, a, c, INTERNAL); }
      case ConfirmDeposit(u, k, a, c,
        p) => if u in db.owners { DepositDisciplined(db.owners, db.owners[u], u, k, a, c, p); }
      case Withdraw(u, k, a, c) =>
        if u in db.owners { WithdrawDisciplined(db.owners, db.owners[u], u, k, a, c, INTERNAL, true); }
      case CreatePayout(u, k, a, c, p, linked) =>
        if u in db.owners { WithdrawDisciplined(db.owners, db.owners[u], u, k, a, c, p, linked); }
      case Transfer(u, v, k, a, c) =>
        if u != v && u in db.owners && v in db.owners {
          assert db.wallets[db.owners[u]].userId == u;
          TransferDisciplined(db.owners, db.owners[u], db.owners[v], k, a, c);
        }
      case Settle(ctx, e, c) => CloseDisciplined(db, ctx, e, Settled(c));
      case Fail(ctx, e) => CloseDisciplined(db, ctx, e, Failed);
      case MarkDelivered(e) => EventUpdateDisciplined(db.owners, op);
      case IncrementRetry(e) => EventUpdateDisciplined(db.owners, op);
    }
  }

  /** A settlement locks no row but the one its context names, and its event. */
  lemma {:induction false} SettlementLocksRows(id: WalletId, ctx: TransactionContext, e: EventId, v: Verdict, n: nat)
    requires n <= |SettlementProgram(id, ctx, e, v)|
    ensures forall r | r in Held(SettlementProgram(id, ctx, e, v), n) ::
              r in {WalletRow(id), TxRow(ctx.id), LogIndex(ctx.id), OutboxRow(e)} || r.CustomerIndex?
  {
  }

  predicate LocksNoRows(p: Program) {
    forall i | 0 <= i < |p| && p[i].Acquire? :: p[i].r.WalletRow? || p[i].r.KeyIndex?
  }

  lemma {:induction false} InitiationsLockNoRows(owners: map<UserId, WalletId>, op: Operation)
    requires HasKey(op)
    ensures LocksNoRows(ProgramOf(owners, op))
  {
  }

  /** The rows an operation locks exist as soon as its caller's guarantee holds. */
  lemma {:induction false} LockedRowsExist(db: Db, op: Operation, r: Resource, n: nat)
    requires Callable(db, op) && n <= |ProgramOf(db.owners, op)|
    requires r in Held(ProgramOf(db.owners, op), n)
    ensures Exists(db, r)
  {
    if HasKey(op) {
      InitiationsLockNoRows(db.owners, op);
    } else if op.Settle? || op.Fail? {
      SettlementRowsExist(db, op.ctx, op.event, if op.Settle? then Settled(op.customer) else Failed, r, n);
    } else {
      assert r == OutboxRow(op.event);
    }
  }

  lemma {:induction false} SettlementRowsExist(db: Db, ctx: TransactionContext, e: EventId, v: Verdict, r: Resource,
                                               n: nat)
    requires CallableSettlement(db, ctx, e) && n <= |SettleOrFailProgram(ctx, e, v)|
    requires r in Held(SettleOrFailProgram(ctx, e, v), n)
    ensures Exists(db, r)
  {
    if ctx.kind != TRANSFER && SettlementWallet(ctx).Some? {
      SettlementLocksRows(SettlementWallet(ctx).value, ctx, e, v, n);
    }
  }
}
