/** The guarantees of concurrent runs: serializable in commit order, one effect per key, one settlement per row. */
module Serializability {
  import opened Schema
  import opened Sums
  import opened Operations
  import opened Invariants
  import opened Runs
  import opened Programs
  import opened Interleaving

  /** A run of the system from a database nobody is using: states[k] steps to states[k + 1] by actions[k]. */
  predicate Trace(start: Db, states: seq<System>, actions: seq<Action>) {
    && |states| == |actions| + 1
    && Initial(states[0], start)
    && forall k | 0 <= k < |actions| ::
         WellPlaced(states[k]) && Enabled(states[k], actions[k]) && states[k + 1] == Next(states[k], actions[k])
  }

  ghost predicate Sane(s: System, start: Db) {
    Coherent(s) && Inv(s.db) && Serial(s, start) && Tallied(s, start)
  }

  // ---- committed threads and the commit log

  function CommittedWith(k: IdempotencyKey): Thread -> int {
    (t: Thread) => if t.phase == Done(Committed) && Carries(t.op, k) then 1 else 0
  }

  function CommittedSettlement(row: TxId): Thread -> int {
    (t: Thread) => if t.phase == Done(Committed) && Settles(t.op, row) then 1 else 0
  }

  /** The threads that answered "committed" are the commits in the log. */
  ghost predicate Tallied(s: System, start: Db) {
    && (forall k :: Sum(s.threads, CommittedWith(k)) == CommitCount(start, s.commits, k))
    && (forall row :: Sum(s.threads, CommittedSettlement(row)) == SettlementCount(start, s.commits, row))
  }

  lemma {:induction false} NextTallies(s: System, a: Action, start: Db, f: Thread -> int)
    requires Enabled(s, a) && WellPlaced(s)
    requires forall t: Thread | t.phase != Done(Committed) :: f(t) == 0
    ensures Sum(Next(s, a).threads, f)
            == Sum(s.threads, f) + (if Committing(s, a) then f(Thread(s.threads[a.thread].op, Done(Committed))) else 0)
  {
    var t := Next(s, a);
    if a.Arrive? {
      SumAppend(s.threads, Thread(a.op, Checking), f);
    } else {
      var i := a.thread;
      assert t.threads == s.threads[i := t.threads[i]];
      SumUpdate(s.threads, i, t.threads[i], f);
      assert t.threads[i].phase == Done(Committed) ==> Committing(s, a);
    }
  }

  lemma {:induction false} NextKeepsTally(s: System, a: Action, start: Db)
    requires Enabled(s, a) && WellPlaced(s) && Serial(s, start) && Tallied(s, start)
    requires Committing(s, a) ==> Body(s.db, s.threads[a.thread].op).Ok?
    ensures Tallied(Next(s, a), start)
  {
    var t := Next(s, a);
    NextShape(s, a);
    assert Committing(s, a) ==> t.commits[..|t.commits| - 1] == s.commits;
    forall k
      ensures Sum(t.threads, CommittedWith(k)) == CommitCount(start, t.commits, k)
    {
      NextTallies(s, a, start, CommittedWith(k));
    }
    forall row
      ensures Sum(t.threads, CommittedSettlement(row)) == SettlementCount(start, t.commits, row)
    {
      NextTallies(s, a, start, CommittedSettlement(row));
    }
  }

  lemma {:induction false} TraceIsSane(start: Db, states: seq<System>, actions: seq<Action>, n: nat)
    requires Trace(start, states, actions) && n < |states|
    ensures Sane(states[n], start)
  {
    if n == 0 {
      InitialIsCoherent(states[0], start);
    } else {
      TraceIsSane(start, states, actions, n - 1);
      NextKeepsCoherent(states[n - 1], actions[n - 1], start);
      NextKeepsHistory(states[n - 1], actions[n - 1], start);
      NextKeepsTally(states[n - 1], actions[n - 1], start);
    }
  }

  // ---- main results

  /**
   * Serializability: after every interleaving of statements, waits, failures and arrivals, the committed tables are
   * those of running the committed operations one at a time in commit order, and every balance invariant holds.
   */
  lemma {:induction false} Serializable(start: Db, states: seq<System>, actions: seq<Action>, n: nat)
    requires Trace(start, states, actions) && n < |states|
    ensures CallableRun(start, states[n].commits)
    ensures states[n].db == RunTo(start, states[n].commits)
    ensures Inv(states[n].db)
  {
    TraceIsSane(start, states, actions, n);
  }

  /**
   * The step that answers "committed" is the operation itself, run whole on the state it finds; no other step changes
   * the database.
   */
  lemma {:induction false} StepsAreAtomic(start: Db, states: seq<System>, actions: seq<Action>, n: nat)
    requires Trace(start, states, actions) && n < |actions|
    ensures if Committing(states[n], actions[n])
            then Body(states[n].db, states[n].threads[actions[n].thread].op) == Ok(states[n + 1].db)
            else states[n + 1].db == states[n].db
  {
    TraceIsSane(start, states, actions, n);
    NextShape(states[n], actions[n]);
    NextKeepsHistory(states[n], actions[n], start);
  }

  /** The step with which thread i answers that error. */
  predicate Refusing(s: System, a: Action, i: ThreadId, e: Error)
    requires WellPlaced(s) && Enabled(s, a)
  {
    && i < |s.threads| && a == Step(i)
    && |Next(s, a).threads| == |s.threads| && Next(s, a).threads[i].phase == Done(Rejected(e))
  }

  lemma {:induction false} RefusalIsTheOperations(s: System, i: ThreadId, e: Error)
    requires Coherent(s) && Enabled(s, Step(i)) && Refusing(s, Step(i), i, e)
    ensures Body(s.db, s.threads[i].op) == Err(e)
  {
    if s.threads[i].phase.Running? {
      var Running(pc, buffer) := s.threads[i].phase;
      ExecuteRefuses(s, i, ProgramAt(s, i), pc, buffer, e);
      RefusalIsCurrent(s, i, e);
    }
  }

  lemma {:induction false} ExecuteRefuses(s: System, i: ThreadId, p: Program, pc: nat, buffer: seq<RowWrite>, e: Error)
    requires i < |s.threads| && pc <= |p| && |Execute(s, i, p, pc, buffer).threads| == |s.threads|
    requires Execute(s, i, p, pc, buffer).threads[i].phase == Done(Rejected(e))
    ensures pc < |p| && Exec(Apply(s.db, buffer), p[pc]) == Err(e)
  {
  }

  /**
   * A request that is refused by a step of its own would be refused, with that error, if it ran whole at that moment.
   */
  lemma {:induction false} RefusalsAreCurrent(start: Db, states: seq<System>, actions: seq<Action>, n: nat, i: ThreadId,
                                              e: Error)
    requires Trace(start, states, actions) && n < |actions| && Refusing(states[n], actions[n], i, e)
    ensures Body(states[n].db, states[n].threads[i].op) == Err(e)
  {
    TraceIsSane(start, states, actions, n);
    RefusalIsTheOperations(states[n], i, e);
  }

  /** One effect per idempotency key, however many requests pass the pre-check before the first one inserts. */
  lemma {:induction false} OneCommitPerKey(start: Db, states: seq<System>, actions: seq<Action>, n: nat,
                                           k: IdempotencyKey)
    requires Trace(start, states, actions) && n < |states|
    ensures Sum(states[n].threads, CommittedWith(k)) <= 1
    ensures Sum(states[n].threads, CommittedWith(k)) == 1 <==> KeyTaken(states[n].db.txs, k) && !KeyTaken(start.txs, k)
  {
    TraceIsSane(start, states, actions, n);
    OneEffectPerKey(start, states[n].commits, k);
    assert Sum(states[n].threads, CommittedWith(k)) == CommitCount(start, states[n].commits, k);
  }

  // ---- replays

  /** Every request answered with an existing row got the row that carries its own key. */
  ghost predicate RepliesMatch(s: System) {
    forall i | 0 <= i < |s.threads| && s.threads[i].phase.Done? && s.threads[i].phase.outcome.Replayed? ::
      Answers(s.db, s.threads[i].op, s.threads[i].phase.outcome.tx)
  }

  predicate Answers(db: Db, op: Operation, t: TxId) {
    HasKey(op) && t < |db.txs| && db.txs[t].key == op.key
  }

  lemma {:induction false} AnswersLast(db: Db, later: Db, op: Operation, t: TxId)
    requires Extends(db, later) && Answers(db, op, t)
    ensures Answers(later, op, t)
  {
    assert SameColumns(db.txs[t], later.txs[t]);
  }

  lemma {:induction false} ReplyIsLookedUp(s: System, a: Action, i: ThreadId)
    requires WellPlaced(s) && Enabled(s, a) && i < |s.threads| && Moves(a, i)
    ensures var phase := Next(s, a).threads[i].phase;
            phase.Done? && phase.outcome.Replayed? ==> Answers(s.db, s.threads[i].op, phase.outcome.tx)
  {
    if a.Step? && s.threads[i].phase.Running? {
      var Running(pc, buffer) := s.threads[i].phase;
      ExecuteNeverReplays(s, i, ProgramAt(s, i), pc, buffer);
    }
  }

  lemma {:induction false} ExecuteNeverReplays(s: System, i: ThreadId, p: Program, pc: nat, buffer: seq<RowWrite>)
    requires i < |s.threads| && pc <= |p|
    ensures |Execute(s, i, p, pc, buffer).threads| == |s.threads|
    ensures var phase := Execute(s, i, p, pc, buffer).threads[i].phase;
            phase.Done? ==> !phase.outcome.Replayed?
  {
  }

  lemma {:induction false} NextKeepsReplies(s: System, a: Action, start: Db)
    requires Coherent(s) && Inv(s.db) && Serial(s, start) && Enabled(s, a) && RepliesMatch(s)
    ensures RepliesMatch(Next(s, a))
  {
    var t := Next(s, a);
    NextShape(s, a);
    NextKeepsHistory(s, a, start);
    forall i | 0 <= i < |t.threads| && t.threads[i].phase.Done? && t.threads[i].phase.outcome.Replayed?
      ensures Answers(t.db, t.threads[i].op, t.threads[i].phase.outcome.tx)
    {
      if Moves(a, i) { ReplyIsLookedUp(s, a, i); }
      AnswersLast(s.db, t.db, t.threads[i].op, t.threads[i].phase.outcome.tx);
    }
  }

  lemma {:induction false} TraceReplies(start: Db, states: seq<System>, actions: seq<Action>, n: nat)
    requires Trace(start, states, actions) && n < |states|
    ensures RepliesMatch(states[n])
  {
    if n > 0 {
      TraceReplies(start, states, actions, n - 1);
      TraceIsSane(start, states, actions, n - 1);
      NextKeepsReplies(states[n - 1], actions[n - 1], start);
    }
  }

  /** A request answered with a row got the one row carrying its own key, and no other row ever carries it. */
  lemma {:induction false} RepliesCarryTheKey(start: Db, states: seq<System>, actions: seq<Action>, n: nat, i: ThreadId)
    requires Trace(start, states, actions) && n < |states| && i < |states[n].threads|
    requires states[n].threads[i].phase.Done? && states[n].threads[i].phase.outcome.Replayed?
    ensures var op, t, txs := states[n].threads[i].op, states[n].threads[i].phase.outcome.tx, states[n].db.txs;
            && HasKey(op) && t < |txs|
            && forall u | 0 <= u < |txs| :: txs[u].key == op.key <==> u == t
  {
    TraceReplies(start, states, actions, n);
    TraceIsSane(start, states, actions, n);
    assert Answers(states[n].db, states[n].threads[i].op, states[n].threads[i].phase.outcome.tx);
    assert UniqueKeys(states[n].db);
  }

  // ---- the pre-check

  /** A request's own key, if it carries one. */
  predicate AsksFor(op: Operation, k: IdempotencyKey) {
    (op.Deposit? || op.Withdraw? || op.Transfer? || op.ConfirmDeposit? || op.CreatePayout?) && op.key == k
  }

  predicate RowWithKey(txs: seq<Transaction>, k: IdempotencyKey) {
    exists t | 0 <= t < |txs| :: txs[t].key == k
  }

  predicate ToOneself(op: Operation) {
    op.Transfer? && op.user == op.recipient
  }

  /**
   * What the first step of a request does: a transfer to oneself is refused; a key that has a row is answered with
   * that row; any other request enters its transaction with nothing done yet. The tables stay as they are.
   */
  lemma {:induction false} FirstStep(start: Db, states: seq<System>, actions: seq<Action>, n: nat, i: ThreadId,
                                     k: IdempotencyKey)
    requires Trace(start, states, actions) && n < |actions| && actions[n] == Step(i)
    requires i < |states[n].threads| && states[n].threads[i].phase == Checking && AsksFor(states[n].threads[i].op, k)
    ensures |states[n + 1].threads| == |states[n].threads| && states[n + 1].db == states[n].db
    ensures var op, phase, txs := states[n].threads[i].op, states[n + 1].threads[i].phase, states[n].db.txs;
            && (ToOneself(op) ==> phase == Done(Rejected(SelfTransfer)))
            && (!ToOneself(op) && RowWithKey(txs, k) ==>
                  phase.Done? && phase.outcome.Replayed? && phase.outcome.tx < |txs| && txs[phase.outcome.tx].key == k)
            && (!ToOneself(op) && !RowWithKey(txs, k) ==> phase == Running(0, []))
  {
  }

  /** settle, fail and the outbox updates carry no key: their first step enters the transaction. */
  lemma {:induction false} FirstStepWithoutKey(start: Db, states: seq<System>, actions: seq<Action>, n: nat,
                                               i: ThreadId)
    requires Trace(start, states, actions) && n < |actions| && actions[n] == Step(i)
    requires i < |states[n].threads| && states[n].threads[i].phase == Checking
    requires var op := states[n].threads[i].op; op.Settle? || op.Fail? || op.MarkDelivered? || op.IncrementRetry?
    ensures |states[n + 1].threads| == |states[n].threads| && states[n + 1].threads[i].phase == Running(0, [])
  {
  }

  /** Still to be checked, interrupted, or answered with the row that has the key. */
  predicate LatePhase(db: Db, phase: Phase, k: IdempotencyKey) {
    || phase == Checking
    || phase == Done(Rejected(Interrupted))
    || (phase.Done? && phase.outcome.Replayed? && phase.outcome.tx < |db.txs| && db.txs[phase.outcome.tx].key == k)
  }

  /** A request that arrived when its key had a row. */
  predicate LateArrival(s: System, i: ThreadId, op: Operation, k: IdempotencyKey) {
    && i < |s.threads| && s.threads[i].op == op && RowWithKey(s.db.txs, k)
    && LatePhase(s.db, s.threads[i].phase, k)
  }

  lemma {:induction false} RowsKeepKeys(db: Db, later: Db, k: IdempotencyKey)
    requires Extends(db, later) && RowWithKey(db.txs, k)
    ensures RowWithKey(later.txs, k)
    ensures forall t | 0 <= t < |db.txs| && db.txs[t].key == k :: t < |later.txs| && later.txs[t].key == k
  {
    forall t | 0 <= t < |db.txs| && db.txs[t].key == k
      ensures t < |later.txs| && later.txs[t].key == k
    {
      assert SameColumns(db.txs[t], later.txs[t]);
    }
  }

  lemma {:induction false} LateMover(s: System, a: Action, i: ThreadId, k: IdempotencyKey)
    requires WellPlaced(s) && Enabled(s, a) && i < |s.threads| && Moves(a, i) && RowWithKey(s.db.txs, k)
    requires AsksFor(s.threads[i].op, k) && !ToOneself(s.threads[i].op) && LatePhase(s.db, s.threads[i].phase, k)
    ensures |Next(s, a).threads| == |s.threads| && LatePhase(s.db, Next(s, a).threads[i].phase, k)
  {
  }

  lemma {:induction false} NextKeepsLate(s: System, a: Action, start: Db, i: ThreadId, op: Operation, k: IdempotencyKey)
    requires Coherent(s) && Inv(s.db) && Serial(s, start) && Enabled(s, a)
    requires AsksFor(op, k) && !ToOneself(op) && LateArrival(s, i, op, k)
    ensures LateArrival(Next(s, a), i, op, k)
  {
    NextShape(s, a);
    if Moves(a, i) { LateMover(s, a, i, k); }
    NextExtends(s, a, start);
    LatePhaseLasts(s.db, Next(s, a).db, Next(s, a).threads[i].phase, k);
  }

  lemma {:induction false} NextExtends(s: System, a: Action, start: Db)
    requires Coherent(s) && Inv(s.db) && Serial(s, start) && Enabled(s, a)
    ensures Extends(s.db, Next(s, a).db)
  {
    NextKeepsHistory(s, a, start);
  }

  lemma {:induction false} LatePhaseLasts(db: Db, later: Db, phase: Phase, k: IdempotencyKey)
    requires Extends(db, later) && RowWithKey(db.txs, k) && LatePhase(db, phase, k)
    ensures RowWithKey(later.txs, k) && LatePhase(later, phase, k)
  {
    RowsKeepKeys(db, later, k);
  }

  lemma {:induction false} ArrivesLate(s: System, op: Operation, k: IdempotencyKey)
    requires WellPlaced(s) && Enabled(s, Arrive(op)) && RowWithKey(s.db.txs, k)
    ensures LateArrival(Next(s, Arrive(op)), |s.threads|, op, k)
  {
  }

  /** A request that arrives once its key is committed, and is not interrupted, is never refused: it gets the row. */
  lemma {:induction false} LateArrivalsAreReplayed(start: Db, states: seq<System>, actions: seq<Action>, n: nat, m: nat,
                                                   op: Operation, k: IdempotencyKey)
    requires Trace(start, states, actions) && n < m < |states| && actions[n] == Arrive(op)
    requires AsksFor(op, k) && !ToOneself(op) && RowWithKey(states[n].db.txs, k)
    ensures LateArrival(states[m], |states[n].threads|, op, k)
    decreases m
  {
    if m == n + 1 {
      ArrivesLate(states[n], op, k);
    } else {
      LateArrivalsAreReplayed(start, states, actions, n, m - 1, op, k);
      TraceIsSane(start, states, actions, m - 1);
      NextKeepsLate(states[m - 1], actions[m - 1], start, |states[n].threads|, op, k);
    }
  }

  // ---- settlements

  /**
   * At most one of all concurrent settle and fail calls for a row commits, and one has exactly when the row is closed.
   */
  lemma {:induction false} OneSettlementPerRow(start: Db, states: seq<System>, actions: seq<Action>, n: nat, row: TxId)
    requires Trace(start, states, actions) && n < |states| && Fresh(start) && row < |states[n].db.txs|
    ensures Sum(states[n].threads, CommittedSettlement(row)) <= 1
    ensures Sum(states[n].threads, CommittedSettlement(row)) == 1 <==> Closed(states[n].db.txs[row])
  {
    TraceIsSane(start, states, actions, n);
    SettledAtMostOnce(start, states[n].commits, row);
    assert Sum(states[n].threads, CommittedSettlement(row)) == SettlementCount(start, states[n].commits, row);
  }
}
