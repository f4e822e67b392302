/**
 * No deadlock: the wait-for graph is acyclic in every reachable state, someone can always step, and everyone finishes.
 */
module Deadlock {
  import opened Schema
  import opened Sums
  import opened Invariants
  import opened Programs
  import opened Locking
  import opened Interleaving

  /** Thread i waits for a resource thread j holds. */
  predicate WaitsFor(s: System, i: ThreadId, j: ThreadId) {
    && i < |s.threads| && j < |s.threads|
    && Wants(s, i).Some? && Wants(s, i).value in s.locks && s.locks[Wants(s, i).value] == j
  }

  /** A waiting holder wants something further up the lock order. */
  lemma {:induction false} WaitsClimb(s: System, i: ThreadId, j: ThreadId)
    requires Coherent(s) && WaitsFor(s, i, j) && Wants(s, j).Some?
    ensures Before(Wants(s, i).value, Wants(s, j).value)
  {
    assert Current(s, j);
    ProgramsAreDisciplined(s.db, s.threads[j].op);
    var p, pc := ProgramAt(s, j), s.threads[j].phase.pc;
    var r := Wants(s, i).value;
    assert r in HeldBy(s, j);
    var k :| 0 <= k < pc && p[k].Acquire? && p[k].r == r;
    assert p[pc].Acquire?;
  }

  lemma {:induction false} BeforeTransitive(a: Resource, b: Resource, c: Resource)
    requires Before(a, b) && Before(b, c)
    ensures Before(a, c)
  {
  }

  predicate WaitPath(s: System, path: seq<ThreadId>) {
    |path| >= 2 && forall k | 0 <= k < |path| - 1 :: WaitsFor(s, path[k], path[k + 1])
  }

  lemma {:induction false} PathClimbs(s: System, path: seq<ThreadId>)
    requires Coherent(s) && WaitPath(s, path)
    requires path[|path| - 1] < |s.threads| && Wants(s, path[|path| - 1]).Some?
    ensures path[0] < |s.threads| && Wants(s, path[0]).Some?
    ensures Before(Wants(s, path[0]).value, Wants(s, path[|path| - 1]).value)
  {
    assert WaitsFor(s, path[0], path[1]);
    var rest := path[1..];
    if |rest| == 1 {
      WaitsClimb(s, path[0], path[1]);
    } else {
      forall k | 0 <= k < |rest| - 1
        ensures WaitsFor(s, rest[k], rest[k + 1])
      {
        assert WaitsFor(s, path[k + 1], path[k + 2]);
      }
      PathClimbs(s, rest);
      WaitsClimb(s, path[0], path[1]);
      BeforeTransitive(Wants(s, path[0]).value, Wants(s, path[1]).value, Wants(s, path[|path| - 1]).value);
    }
  }

  /** No thread waits, directly or through others, for itself. */
  lemma {:induction false} NoWaitCycle(s: System, path: seq<ThreadId>)
    requires Coherent(s) && WaitPath(s, path)
    ensures path[0] != path[|path| - 1]
  {
    assert WaitsFor(s, path[0], path[1]);
    if path[0] == path[|path| - 1] {
      PathClimbs(s, path);
    }
  }

  /** Threads that want something above r. */
  function Above(s: System, r: Resource): set<ThreadId> {
    set j | 0 <= j < |s.threads| && Wants(s, j).Some? && Before(r, Wants(s, j).value)
  }

  /** Deadlock freedom: while any thread is unfinished, some thread can take its next step. */
  lemma {:induction false} SomeoneCanStep(s: System, i: ThreadId) returns (j: ThreadId)
    requires Coherent(s) && i < |s.threads| && !Finished(s, i)
    ensures Enabled(s, Step(j))
    decreases if Wants(s, i).Some? then |Above(s, Wants(s, i).value)| else 0
  {
    if !Blocked(s, i) {
      return i;
    }
    var r := Wants(s, i).value;
    var h := s.locks[r];
    assert r in HeldBy(s, h);
    if !Blocked(s, h) {
      return h;
    }
    var r' := Wants(s, h).value;
    WaitsClimb(s, i, h);
    forall k | k in Above(s, r')
      ensures k in Above(s, r)
    {
      BeforeTransitive(r, r', Wants(s, k).value);
    }
    assert h in Above(s, r) && h !in Above(s, r');
    SmallerSet(Above(s, r'), Above(s, r));
    j := SomeoneCanStep(s, h);
  }

  lemma {:induction false} SmallerSet(a: set<ThreadId>, b: set<ThreadId>)
    requires a < b
    ensures |a| < |b|
  {
    var rest := b - a;
    assert b == a + rest;
    var x :| x in b && x !in a;
    assert x in rest;
  }

  // ---- everyone finishes

  /** Steps a thread can still take. */
  function Remaining(owners: map<UserId, WalletId>): Thread -> int {
    (t: Thread) =>
      match t.phase
      case Checking => |ProgramOf(owners, t.op)| + 2
      case Running(pc, _) => |ProgramOf(owners, t.op)| - pc + 1
      case Done(_) => 0
  }

  function WorkLeft(s: System): int {
    Sum(s.threads, Remaining(s.db.owners))
  }

  predicate AllFinished(s: System) {
    forall i | 0 <= i < |s.threads| :: Finished(s, i)
  }

  lemma {:induction false} WorkLeftIsNatural(s: System)
    requires WellPlaced(s)
    ensures 0 <= WorkLeft(s)
  {
    SumNonNegative(s.threads, Remaining(s.db.owners));
  }

  /** Every action but a new arrival uses up work: no thread retries, and waiting is not a step. */
  lemma {:induction false} StepsUseWork(s: System, a: Action)
    requires Coherent(s) && Enabled(s, a) && !a.Arrive? && Next(s, a).db.owners == s.db.owners
    ensures WorkLeft(Next(s, a)) < WorkLeft(s)
  {
    var i := a.thread;
    var t := Next(s, a);
    MoverUsesWork(s, a);
    SumUpdate(s.threads, i, t.threads[i], Remaining(s.db.owners));
  }

  lemma {:induction false} MoverUsesWork(s: System, a: Action)
    requires WellPlaced(s) && Enabled(s, a) && !a.Arrive?
    ensures a.thread < |s.threads| == |Next(s, a).threads|
    ensures Next(s, a).threads == s.threads[a.thread := Next(s, a).threads[a.thread]]
    ensures Remaining(s.db.owners)(Next(s, a).threads[a.thread]) < Remaining(s.db.owners)(s.threads[a.thread])
  {
    assert a.Interrupt? || s.threads[a.thread].phase.Checking? || s.threads[a.thread].phase.Running?;
  }

  predicate Reachable(s: System, start: Db) {
    Coherent(s) && Inv(s.db) && Serial(s, start)
  }

  /** A run of actions, each enabled where it is taken; none is a new arrival. */
  predicate Schedule(states: seq<System>, actions: seq<Action>) {
    && |states| == |actions| + 1
    && forall k | 0 <= k < |actions| ::
         !actions[k].Arrive? && WellPlaced(states[k]) && Enabled(states[k], actions[k])
           && states[k + 1] == Next(states[k], actions[k])
  }

  lemma {:induction false} ActionMakesProgress(s: System, a: Action, start: Db)
    requires Reachable(s, start) && Enabled(s, a) && !a.Arrive?
    ensures Reachable(Next(s, a), start) && 0 <= WorkLeft(Next(s, a)) < WorkLeft(s)
  {
    NextKeepsCoherent(s, a, start);
    NextKeepsHistory(s, a, start);
    StepsUseWork(s, a);
    WorkLeftIsNatural(Next(s, a));
  }

  lemma {:induction false} StepWhileUnfinished(s: System, start: Db) returns (j: ThreadId)
    requires Reachable(s, start) && !AllFinished(s)
    ensures Enabled(s, Step(j))
  {
    var i :| 0 <= i < |s.threads| && !Finished(s, i);
    j := SomeoneCanStep(s, i);
  }

  predicate OnlySteps(actions: seq<Action>) {
    forall k | 0 <= k < |actions| :: actions[k].Step?
  }

  /** A schedule of steps from s after which everyone has finished. */
  predicate Finishes(s: System, states: seq<System>, actions: seq<Action>) {
    && Schedule(states, actions) && states[0] == s && OnlySteps(actions) && AllFinished(states[|actions|])
  }

  lemma {:induction false} FinishesAfterStep(s: System, i: ThreadId, states: seq<System>, actions: seq<Action>)
    requires WellPlaced(s) && Enabled(s, Step(i)) && Finishes(Next(s, Step(i)), states, actions)
    ensures Finishes(s, [s] + states, [Step(i)] + actions)
  {
  }

  lemma {:induction false} NothingToDo(s: System)
    requires AllFinished(s)
    ensures Finishes(s, [s], [])
  {
  }

  /**
   * From any reachable state, with no further arrivals: a schedule that lets everyone finish, no longer than the work
   * left.
   */
  lemma {:induction false} EveryoneCanFinish(s: System, start: Db) returns (states: seq<System>, actions: seq<Action>)
    requires Reachable(s, start)
    ensures Finishes(s, states, actions) && |actions| <= WorkLeft(s)
    decreases WorkLeft(s)
  {
    if AllFinished(s) {
      WorkLeftIsNatural(s);
      NothingToDo(s);
      return [s], [];
    }
    var j := StepWhileUnfinished(s, start);
    ActionMakesProgress(s, Step(j), start);
    var rest, more := EveryoneCanFinish(Next(s, Step(j)), start);
    FinishesAfterStep(s, j, rest, more);
    states, actions := [s] + rest, [Step(j)] + more;
  }

  /**
   * And every schedule without arrivals, lucky or not, is that short; when it can go no further, everyone has
   * finished.
   */
  lemma {:induction false} EverySchedule(states: seq<System>, actions: seq<Action>, start: Db)
    requires Schedule(states, actions) && Reachable(states[0], start)
    ensures |actions| <= WorkLeft(states[0])
    ensures (forall j :: !Enabled(states[|actions|], Step(j))) ==> AllFinished(states[|actions|])
    decreases |actions|
  {
    if |actions| == 0 {
      WorkLeftIsNatural(states[0]);
      if !AllFinished(states[0]) {
        var j := StepWhileUnfinished(states[0], start);
      }
    } else {
      ActionMakesProgress(states[0], actions[0], start);
      EverySchedule(states[1..], actions[1..], start);
    }
  }
}
