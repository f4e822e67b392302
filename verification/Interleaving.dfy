/**
 * Concurrent requests, statement by statement: each thread runs its pre-check, then its transaction's program against
 * its own view, waiting for row and index locks, and applies its buffer at commit.
 */
module Interleaving {
  import opened Schema
  import opened Operations
  import opened Invariants
  import opened Runs
  import opened Programs
  import opened Locking
  import opened Undisturbed

  /** A request before its pre-check, inside its database transaction, or answered. */
  datatype Phase = Checking | Running(pc: nat, buffer: seq<RowWrite>) | Done(outcome: Outcome)

  datatype Thread = Thread(op: Operation, phase: Phase)

  type ThreadId = nat

  /** `commits` lists the committed operations in commit order. */
  datatype System = System(db: Db, threads: seq<Thread>, locks: map<Resource, ThreadId>, commits: seq<Operation>)

  /** What can happen next: a thread's next step, a thread's failure from outside, or a new request. */
  datatype Action = Step(thread: ThreadId) | Interrupt(thread: ThreadId) | Arrive(op: Operation)

  function ProgramAt(s: System, i: ThreadId): Program
    requires i < |s.threads|
  {
    ProgramOf(s.db.owners, s.threads[i].op)
  }

  predicate Finished(s: System, i: ThreadId)
    requires i < |s.threads|
  {
    s.threads[i].phase.Done?
  }

  /** The resource thread i's next statement asks for. */
  function Wants(s: System, i: ThreadId): Option<Resource>
    requires i < |s.threads|
  {
    match s.threads[i].phase
    case Running(pc, _) =>
      var p := ProgramAt(s, i);
      if pc < |p| && p[pc].Acquire? then Some(p[pc].r) else None
    case _ => None
  }

  predicate Blocked(s: System, i: ThreadId)
    requires i < |s.threads|
  {
    Wants(s, i).Some? && Wants(s, i).value in s.locks
  }

  predicate Enabled(s: System, a: Action) {
    match a
    case Step(i) => i < |s.threads| && !Finished(s, i) && !Blocked(s, i)
    case Interrupt(i) => i < |s.threads| && !Finished(s, i)
    case Arrive(op) => Callable(s.db, op)
  }

  function Release(locks: map<Resource, ThreadId>, i: ThreadId): map<Resource, ThreadId> {
    map r | r in locks && locks[r] != i :: locks[r]
  }

  function SetPhase(s: System, i: ThreadId, phase: Phase): System
    requires i < |s.threads|
  {
    s.(threads := s.threads[i := s.threads[i].(phase := phase)])
  }

  /** A thread leaves its transaction; its locks go. */
  function Finish(s: System, i: ThreadId, outcome: Outcome): System
    requires i < |s.threads|
  {
    SetPhase(s, i, Done(outcome)).(locks := Release(s.locks, i))
  }

  function Commit(s: System, i: ThreadId, buffer: seq<RowWrite>): System
    requires i < |s.threads|
  {
    Finish(s, i, Committed).(db := Apply(s.db, buffer), commits := s.commits + [s.threads[i].op])
  }

  /** The pre-check reads outside the transaction: what it sees may be stale when the transaction begins. */
  function Check(s: System, i: ThreadId): System
    requires i < |s.threads|
  {
    var op := s.threads[i].op;
    if op.Transfer? && op.user == op.recipient then SetPhase(s, i, Done(Rejected(SelfTransfer)))
    else if HasKey(op) && FindByKey(s.db.txs, op.key).Some?
    then SetPhase(s, i, Done(Replayed(FindByKey(s.db.txs, op.key).value)))
    else SetPhase(s, i, Running(0, []))
  }

  /** Thread i, having run pc statements of its program p, runs the next one or commits. */
  function Execute(s: System, i: ThreadId, p: Program, pc: nat, buffer: seq<RowWrite>): System
    requires i < |s.threads| && pc <= |p|
  {
    if pc == |p| then Commit(s, i, buffer)
    else if p[pc].Acquire? then SetPhase(s, i, Running(pc + 1, buffer)).(locks := s.locks[p[pc].r := i])
    else
      match Exec(Apply(s.db, buffer), p[pc])
      case Err(e) => Finish(s, i, Rejected(e))
      case Ok(None) => SetPhase(s, i, Running(pc + 1, buffer))
      case Ok(Some(x)) => SetPhase(s, i, Running(pc + 1, buffer + [x]))
  }

  function Next(s: System, a: Action): System
    requires Enabled(s, a) && WellPlaced(s)
  {
    match a
    case Step(i) =>
      (match s.threads[i].phase
       case Checking => Check(s, i)
       case Running(pc, buffer) => Execute(s, i, ProgramAt(s, i), pc, buffer)
       case Done(_) => s)
    case Interrupt(i) => Finish(s, i, Rejected(Interrupted))
    case Arrive(op) => s.(threads := s.threads + [Thread(op, Checking)])
  }

  predicate WellPlaced(s: System) {
    forall i | 0 <= i < |s.threads| && s.threads[i].phase.Running? :: s.threads[i].phase.pc <= |ProgramAt(s, i)|
  }

  // ---- the invariant of the system

  /** The locks thread i holds, as its program counter says. */
  function HeldBy(s: System, i: ThreadId): set<Resource>
    requires i < |s.threads| && WellPlaced(s)
  {
    if s.threads[i].phase.Running? then Held(ProgramAt(s, i), s.threads[i].phase.pc) else {}
  }

  /** The lock table says exactly that: so a resource has at most one holder. */
  predicate LockTable(s: System)
    requires WellPlaced(s)
  {
    && (forall r | r in s.locks :: s.locks[r] < |s.threads| && r in HeldBy(s, s.locks[r]))
    && (forall i, r | 0 <= i < |s.threads| && r in HeldBy(s, i) :: r in s.locks && s.locks[r] == i)
  }

  /**
   * Whatever others have committed meanwhile, a running thread's buffer is what its statements so far would produce
   * if they had run just now: what it read under its locks is current.
   */
  predicate Current(s: System, i: ThreadId)
    requires i < |s.threads| && WellPlaced(s)
  {
    && Callable(s.db, s.threads[i].op)
    && (s.threads[i].phase.Running? ==>
          Run(s.db, ProgramAt(s, i), s.threads[i].phase.pc) == Ok(s.threads[i].phase.buffer))
  }

  predicate Coherent(s: System) {
    && WellPlaced(s)
    && OwnersConsistent(s.db)
    && LockTable(s)
    && forall i | 0 <= i < |s.threads| :: Current(s, i)
  }

  /** The committed state is the commits run one at a time. */
  predicate Serial(s: System, start: Db) {
    CallableRun(start, s.commits) && s.db == RunTo(start, s.commits)
  }

  predicate Initial(s: System, start: Db) {
    Inv(start) && s == System(start, [], map[], [])
  }

  lemma {:induction false} InitialIsCoherent(s: System, start: Db)
    requires Initial(s, start)
    ensures Coherent(s) && Inv(s.db) && Serial(s, start)
  {
  }

  // ---- what the steps do to the committed state

  /** A thread that has run all its statements commits exactly its operation, from the state it finds at that moment. */
  lemma {:induction false} CommitIsTheOperation(s: System, i: ThreadId)
    requires Coherent(s) && i < |s.threads| && s.threads[i].phase.Running?
    requires s.threads[i].phase.pc == |ProgramAt(s, i)|
    ensures Body(s.db, s.threads[i].op) == Ok(Apply(s.db, s.threads[i].phase.buffer))
  {
    var p := ProgramAt(s, i);
    assert Current(s, i);
    BufferedRunIsUndisturbedRun(s.db, p, |p|);
    ProgramAlone(s.db, s.threads[i].op);
  }

  /**
   * A guard or unique index that refuses a thread would refuse the operation run alone at that moment, the same way.
   */
  lemma {:induction false} RefusalIsCurrent(s: System, i: ThreadId, e: Error)
    requires Coherent(s) && i < |s.threads| && s.threads[i].phase.Running?
    requires var Running(pc, buffer) := s.threads[i].phase;
             pc < |ProgramAt(s, i)| && Exec(Apply(s.db, buffer), ProgramAt(s, i)[pc]) == Err(e)
    ensures Body(s.db, s.threads[i].op) == Err(e)
  {
    var p := ProgramAt(s, i);
    assert Current(s, i);
    BufferedRunIsUndisturbedRun(s.db, p, s.threads[i].phase.pc + 1);
    ProgramAlone(s.db, s.threads[i].op);
  }

  predicate Committing(s: System, a: Action) {
    a.Step? && a.thread < |s.threads| && s.threads[a.thread].phase.Running?
    && s.threads[a.thread].phase.pc == |ProgramAt(s, a.thread)|
  }

  predicate Moves(a: Action, j: ThreadId) {
    a == Step(j) || a == Interrupt(j)
  }

  /** An action changes one thread; only a commit changes the database. */
  lemma {:induction false} NextShape(s: System, a: Action)
    requires Enabled(s, a) && WellPlaced(s)
    ensures var t := Next(s, a);
            && |s.threads| <= |t.threads|
            && (forall j | 0 <= j < |s.threads| ::
                  t.threads[j].op == s.threads[j].op && (!Moves(a, j) ==> t.threads[j] == s.threads[j]))
            && (forall j | |s.threads| <= j < |t.threads| ::
                  t.threads[j].phase == Checking && a == Arrive(t.threads[j].op))
            && (if Committing(s, a)
                then t.db == Apply(s.db, s.threads[a.thread].phase.buffer)
                  && t.commits == s.commits + [s.threads[a.thread].op]
                else t.db == s.db && t.commits == s.commits)
  {
    match a {
      case Step(i) =>
        if s.threads[i].phase.Running? {
          var Running(pc, buffer) := s.threads[i].phase;
          ExecuteChangesOne(s, i, ProgramAt(s, i), pc, buffer);
        }
      case _ =>
    }
  }

  lemma {:induction false} ExecuteChangesOne(s: System, i: ThreadId, p: Program, pc: nat, buffer: seq<RowWrite>)
    requires i < |s.threads| && pc <= |p|
    ensures var t := Execute(s, i, p, pc, buffer);
            && |t.threads| == |s.threads| && t.threads[i].op == s.threads[i].op
            && (forall j | 0 <= j < |s.threads| && j != i :: t.threads[j] == s.threads[j])
            && (if pc == |p| then t.db == Apply(s.db, buffer) && t.commits == s.commits + [s.threads[i].op]
                else t.db == s.db && t.commits == s.commits)
            && (t.threads[i].phase.Running? ==> t.threads[i].phase.pc == pc + 1 <= |p|)
  {
  }

  /** A lock has one holder. */
  lemma {:induction false} HoldersDiffer(s: System, i: ThreadId, j: ThreadId, r: Resource)
    requires WellPlaced(s) && LockTable(s) && i < |s.threads| && j < |s.threads| && i != j
    requires r in HeldBy(s, j)
    ensures r !in HeldBy(s, i)
  {
    assert s.locks[r] == j;
  }

  /** What thread j holds locked stays as j read it, whatever anyone else does. */
  lemma {:induction false} LockedRowsStayCurrent(s: System, a: Action, j: ThreadId)
    requires Coherent(s) && Enabled(s, a) && j < |s.threads| && !Moves(a, j)
    ensures Agree(s.db, Next(s, a).db, HeldBy(s, j))
  {
    NextShape(s, a);
    assert Current(s, j);
    forall r | r in HeldBy(s, j)
      ensures AgreeOn(s.db, Next(s, a).db, r)
    {
      LockedRowsExist(s.db, s.threads[j].op, r, s.threads[j].phase.pc);
      if Committing(s, a) {
        var i := a.thread;
        assert Current(s, i);
        ProgramsAreDisciplined(s.db, s.threads[i].op);
        RunTouchesHeld(s.db, ProgramAt(s, i), |ProgramAt(s, i)|);
        HoldersDiffer(s, i, j, r);
        ApplyStaysInside(s.db, s.threads[i].phase.buffer, HeldBy(s, i), r);
      }
    }
  }

  // ---- preservation

  /** A thread that did not move is still current in a database that agrees on what it holds. */
  lemma {:induction false} StaysCurrent(s: System, t: System, j: ThreadId)
    requires WellPlaced(s) && WellPlaced(t) && OwnersConsistent(s.db)
    requires j < |s.threads| && j < |t.threads| && t.threads[j] == s.threads[j]
    requires Extends(s.db, t.db) && Current(s, j) && Agree(s.db, t.db, HeldBy(s, j))
    ensures Current(t, j) && HeldBy(t, j) == HeldBy(s, j)
  {
    StaleContextStaysCallable(s.db, t.db, s.threads[j].op);
    if s.threads[j].phase.Running? {
      ProgramsAreDisciplined(s.db, s.threads[j].op);
      RunDependsOnHeld(s.db, t.db, ProgramAt(s, j), s.threads[j].phase.pc);
    }
  }

  /** A commit is one operation of the serial history; anything else leaves the history alone. */
  lemma {:induction false} NextKeepsHistory(s: System, a: Action, start: Db)
    requires Coherent(s) && Inv(s.db) && Serial(s, start) && Enabled(s, a)
    ensures var t := Next(s, a); Inv(t.db) && Extends(s.db, t.db) && Serial(t, start)
    ensures Committing(s, a) ==>
              Next(s, a).db == After(s.db, s.threads[a.thread].op) && Body(s.db, s.threads[a.thread].op).Ok?
  {
    NextShape(s, a);
    if Committing(s, a) {
      var op := s.threads[a.thread].op;
      assert Current(s, a.thread);
      CommitIsTheOperation(s, a.thread);
      StepKeepsInv(s.db, op);
      StepExtends(s.db, op);
      SerialAppend(s, Next(s, a), op, start);
    }
  }

  lemma {:induction false} SerialAppend(s: System, t: System, op: Operation, start: Db)
    requires Serial(s, start) && Callable(s.db, op) && t.commits == s.commits + [op] && t.db == After(s.db, op)
    ensures Serial(t, start)
  {
    assert t.commits[..|t.commits| - 1] == s.commits;
  }

  lemma {:induction false} NextKeepsPlaces(s: System, a: Action)
    requires WellPlaced(s) && Enabled(s, a) && Next(s, a).db.owners == s.db.owners
    ensures WellPlaced(Next(s, a))
  {
    NextShape(s, a);
    if a.Step? && s.threads[a.thread].phase.Running? {
      var Running(pc, buffer) := s.threads[a.thread].phase;
      ExecuteChangesOne(s, a.thread, ProgramAt(s, a.thread), pc, buffer);
    }
  }

  lemma {:induction false} HeldStep(p: Program, n: nat)
    requires n < |p|
    ensures Held(p, n + 1) == Held(p, n) + (if p[n].Acquire? then {p[n].r} else {})
  {
    assert forall i | 0 <= i < n && p[i].Acquire? :: p[i].r in Held(p, n);
    assert forall r | r in Held(p, n + 1) && r !in Held(p, n) :: p[n].Acquire? && r == p[n].r;
  }

  /** The moving thread: its buffer is one statement longer, or it is done. */
  lemma {:induction false} MoverStaysCurrent(s: System, i: ThreadId)
    requires WellPlaced(s) && i < |s.threads| && Current(s, i) && Enabled(s, Step(i)) && WellPlaced(Next(s, Step(i)))
    requires !Committing(s, Step(i))
    ensures Current(Next(s, Step(i)), i)
  {
    NextShape(s, Step(i));
    if s.threads[i].phase.Running? {
      StatementStaysCurrent(s, i);
    }
  }

  lemma {:induction false} StatementStaysCurrent(s: System, i: ThreadId)
    requires WellPlaced(s) && i < |s.threads| && Current(s, i) && s.threads[i].phase.Running? && !Blocked(s, i)
    requires s.threads[i].phase.pc < |ProgramAt(s, i)| && WellPlaced(Next(s, Step(i)))
    ensures Current(Next(s, Step(i)), i)
  {
    var Running(pc, buffer) := s.threads[i].phase;
    ExecuteShape(s, i, ProgramAt(s, i), pc, buffer);
  }

  lemma {:induction false} ExecuteShape(s: System, i: ThreadId, p: Program, pc: nat, buffer: seq<RowWrite>)
    requires i < |s.threads| && pc < |p| && Run(s.db, p, pc) == Ok(buffer)
    ensures var t := Execute(s, i, p, pc, buffer);
            && t.db == s.db && |t.threads| == |s.threads| && t.threads[i].op == s.threads[i].op
            && (t.threads[i].phase.Done?
                || (t.threads[i].phase.Running? && t.threads[i].phase.pc == pc + 1
                    && Run(s.db, p, pc + 1) == Ok(t.threads[i].phase.buffer)))
  {
    OneStatementMore(s.db, p, pc, buffer);
  }

  /** What the moving thread holds afterwards, and what the lock table says about it. */
  lemma {:induction false} MoverLocks(s: System, i: ThreadId)
    requires WellPlaced(s) && Enabled(s, Step(i)) && WellPlaced(Next(s, Step(i)))
             && Next(s, Step(i)).db.owners == s.db.owners
    ensures var t := Next(s, Step(i));
            || (t.threads[i].phase.Running? && Wants(s, i).Some? && Wants(s, i).value !in s.locks
                && HeldBy(t, i) == HeldBy(s, i) + {Wants(s, i).value} && t.locks == s.locks[Wants(s, i).value := i])
            || (t.threads[i].phase.Running? && HeldBy(t, i) == HeldBy(s, i) && t.locks == s.locks)
            || (t.threads[i].phase.Done? && t.locks == Release(s.locks, i))
            || (t.threads[i].phase.Done? && HeldBy(s, i) == {} && t.locks == s.locks)
  {
    if s.threads[i].phase.Running? && s.threads[i].phase.pc < |ProgramAt(s, i)| {
      HeldStep(ProgramAt(s, i), s.threads[i].phase.pc);
    }
  }

  // The lock table and what the threads hold, as plain maps and sets.

  predicate Exact(locks: map<Resource, ThreadId>, held: seq<set<Resource>>) {
    && (forall r | r in locks :: locks[r] < |held| && r in held[locks[r]])
    && (forall i, r | 0 <= i < |held| && r in held[i] :: r in locks && locks[r] == i)
  }

  function Holdings(s: System): (held: seq<set<Resource>>)
    requires WellPlaced(s)
    ensures |held| == |s.threads| && forall i | 0 <= i < |held| :: held[i] == HeldBy(s, i)
  {
    seq(|s.threads|, i requires 0 <= i < |s.threads| => HeldBy(s, i))
  }

  lemma {:induction false} LockTableIsExact(s: System)
    requires WellPlaced(s)
    ensures LockTable(s) <==> Exact(s.locks, Holdings(s))
  {
    var held := Holdings(s);
    if LockTable(s) {
      forall i, r | 0 <= i < |held| && r in held[i]
        ensures r in s.locks && s.locks[r] == i
      {
        assert r in HeldBy(s, i);
      }
    }
    if Exact(s.locks, held) {
      forall i, r | 0 <= i < |s.threads| && r in HeldBy(s, i)
        ensures r in s.locks && s.locks[r] == i
      {
        assert r in held[i];
      }
    }
  }

  lemma {:induction false} TakingKeepsExact(locks: map<Resource, ThreadId>, held: seq<set<Resource>>, i: ThreadId,
                                            r: Resource)
    requires Exact(locks, held) && i < |held| && r !in locks
    ensures Exact(locks[r := i], held[i := held[i] + {r}])
  {
  }

  lemma {:induction false} ReleasingKeepsExact(locks: map<Resource, ThreadId>, held: seq<set<Resource>>, i: ThreadId)
    requires Exact(locks, held) && i < |held|
    ensures Exact(Release(locks, i), held[i := {}])
  {
  }

  lemma {:induction false} ArrivalKeepsExact(locks: map<Resource, ThreadId>, held: seq<set<Resource>>)
    requires Exact(locks, held)
    ensures Exact(locks, held + [{}])
  {
  }

  /** Everyone but the moving thread holds what it held. */
  lemma {:induction false} OthersHoldTheSame(s: System, a: Action)
    requires WellPlaced(s) && Enabled(s, a) && WellPlaced(Next(s, a)) && Next(s, a).db.owners == s.db.owners
    ensures var t := Next(s, a);
            if a.Arrive? then Holdings(t) == Holdings(s) + [{}]
            else
              && a.thread < |s.threads| == |t.threads|
              && Holdings(t) == Holdings(s)[a.thread := HeldBy(t, a.thread)]
  {
    NextShape(s, a);
    var t := Next(s, a);
    forall j | 0 <= j < |t.threads| && (j < |s.threads| ==> !Moves(a, j))
      ensures HeldBy(t, j) == if j < |s.threads| then HeldBy(s, j) else {}
    {
    }
  }

  /** The lock table stays exact: the moving thread takes a free lock, keeps what it has, or lets all go. */
  lemma {:induction false} NextKeepsLocks(s: System, a: Action)
    requires WellPlaced(s) && LockTable(s) && Enabled(s, a) && WellPlaced(Next(s, a))
    requires Next(s, a).db.owners == s.db.owners
    ensures LockTable(Next(s, a))
  {
    var t := Next(s, a);
    var held := Holdings(s);
    LockTableIsExact(s);
    LockTableIsExact(t);
    OthersHoldTheSame(s, a);
    match a {
      case Arrive(op) => ArrivalKeepsExact(s.locks, held);
      case Interrupt(i) => ReleasingKeepsExact(s.locks, held, i);
      case Step(i) =>
        MoverLocks(s, i);
        ReleasingKeepsExact(s.locks, held, i);
        if Wants(s, i).Some? {
          TakingKeepsExact(s.locks, held, i, Wants(s, i).value);
        }
        assert held[i := held[i]] == held;
    }
  }

  /** Every action keeps the system coherent and its state serial. */
  lemma {:induction false} NextKeepsCoherent(s: System, a: Action, start: Db)
    requires Coherent(s) && Inv(s.db) && Serial(s, start) && Enabled(s, a)
    ensures Coherent(Next(s, a)) && Inv(Next(s, a).db) && Serial(Next(s, a), start)
  {
    var t := Next(s, a);
    NextKeepsHistory(s, a, start);
    NextKeepsPlaces(s, a);
    NextKeepsLocks(s, a);
    NextShape(s, a);
    forall j | 0 <= j < |t.threads|
      ensures Current(t, j)
    {
      if j < |s.threads| {
        OneStaysCurrent(s, a, j);
      }
    }
  }

  lemma {:induction false} OneStaysCurrent(s: System, a: Action, j: ThreadId)
    requires Coherent(s) && Enabled(s, a) && WellPlaced(Next(s, a)) && Extends(s.db, Next(s, a).db)
    requires j < |s.threads| <= |Next(s, a).threads|
    ensures Current(Next(s, a), j)
  {
    var t := Next(s, a);
    assert Current(s, j);
    NextShape(s, a);
    StaleContextStaysCallable(s.db, t.db, s.threads[j].op);
    if !Moves(a, j) {
      LockedRowsStayCurrent(s, a, j);
      StaysCurrent(s, t, j);
    } else if a.Step? && !Committing(s, a) {
      MoverStaysCurrent(s, j);
    }
  }
}
