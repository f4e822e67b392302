/** deleteAllExpiredTokens in batches, with anything at all happening to tokens, cache and clock while it waits. */
module Cleanup {
  import opened Sessions
  import opened Refresh

  /** The rows of one batch, and what happens until the next one. */
  datatype Round = Round(rows: set<Hash>, meanwhile: seq<Action>)

  function Expired(a: Auth): set<Hash> {
    set h | h in a.tokens && a.tokens[h].expiresAt < a.now
  }

  /** The state after the rounds. */
  function Through(a: Auth, rounds: seq<Round>): Auth {
    if |rounds| == 0 then a
    else
      var last := rounds[|rounds| - 1];
      Run(Do(Through(a, rounds[..|rounds| - 1]), Delete(last.rows)), last.meanwhile)
  }

  /** Any batchSize expired rows, or all of them if there are fewer. */
  predicate IsBatch(a: Auth, rows: set<Hash>, batchSize: nat) {
    rows <= Expired(a) && |rows| == if |Expired(a)| <= batchSize then |Expired(a)| else batchSize
  }

  predicate RoundsOk(a: Auth, rounds: seq<Round>, batchSize: nat) {
    |rounds| == 0 ||
    (var most, last := rounds[..|rounds| - 1], rounds[|rounds| - 1];
     && RoundsOk(a, most, batchSize)
     && IsBatch(Through(a, most), last.rows, batchSize)
     && EnabledRun(Do(Through(a, most), Delete(last.rows)), last.meanwhile))
  }

  /** Every batch but the last is full; the last is not, and ends the call. */
  predicate CleanupRun(a: Auth, rounds: seq<Round>, batchSize: nat) {
    && RoundsOk(a, rounds, batchSize) && rounds != []
    && (forall i | 0 <= i < |rounds| - 1 :: |rounds[i].rows| == batchSize)
    && |rounds[|rounds| - 1].rows| < batchSize && rounds[|rounds| - 1].meanwhile == []
  }

  function RowsRemoved(rounds: seq<Round>): nat {
    if |rounds| == 0 then 0 else RowsRemoved(rounds[..|rounds| - 1]) + |rounds[|rounds| - 1].rows|
  }

  function AllRows(rounds: seq<Round>): set<Hash> {
    if |rounds| == 0 then {} else AllRows(rounds[..|rounds| - 1]) + rounds[|rounds| - 1].rows
  }

  lemma {:induction false} SameSize(a: set<Hash>, b: set<Hash>)
    requires a <= b && |a| == |b|
    ensures a == b
  {
    assert b == a + (b - a);
    assert |b - a| == 0;
  }

  /** Whatever others did in between: when the call ends no token has expired by the clock reading of its last batch. */
  lemma {:induction false} NothingExpiredIsLeft(a: Auth, rounds: seq<Round>, batchSize: nat)
    requires CleanupRun(a, rounds, batchSize)
    ensures Expired(Through(a, rounds)) == {}
    ensures var b := Through(a, rounds);
            forall h | h in b.tokens :: b.now <= b.tokens[h].expiresAt
  {
    var before, last := Through(a, rounds[..|rounds| - 1]), rounds[|rounds| - 1];
    SameSize(last.rows, Expired(before));
    assert Through(a, rounds) == Do(before, Delete(last.rows));
  }

  /** A batch takes nothing but rows that have expired. */
  lemma {:induction false} OnlyExpiredGo(a: Auth, rows: set<Hash>, batchSize: nat)
    requires IsBatch(a, rows, batchSize)
    ensures forall h | h in rows :: h in a.tokens && a.tokens[h].expiresAt < a.now
    ensures Do(a, Delete(rows)) == a.(tokens := map h | h in a.tokens && h !in rows :: a.tokens[h])
  {
  }

  /** A removed row never comes back. */
  lemma {:induction false} RemovedStayRemoved(a: Auth, rounds: seq<Round>, batchSize: nat)
    requires AuthInv(a) && RoundsOk(a, rounds, batchSize)
    ensures AuthInv(Through(a, rounds)) && Forward(a, Through(a, rounds))
    ensures AllRows(rounds) <= Through(a, rounds).issued && AllRows(rounds) !! Through(a, rounds).tokens.Keys
  {
    if |rounds| == 0 {
      ForwardReflexive(a);
    } else {
      var most, last := rounds[..|rounds| - 1], rounds[|rounds| - 1];
      RemovedStayRemoved(a, most, batchSize);
      OneRoundOn(Through(a, most), last, AllRows(most));
      ForwardTransitive(a, Through(a, most), Through(a, rounds));
    }
  }

  lemma {:induction false} OneRoundOn(a: Auth, round: Round, gone: set<Hash>)
    requires AuthInv(a) && gone <= a.issued && gone !! a.tokens.Keys && round.rows <= Expired(a)
    requires EnabledRun(Do(a, Delete(round.rows)), round.meanwhile)
    ensures var b := Run(Do(a, Delete(round.rows)), round.meanwhile);
            AuthInv(b) && Forward(a, b) && gone + round.rows <= b.issued && (gone + round.rows) !! b.tokens.Keys
  {
    var x := Delete(round.rows);
    StepKeepsAuth(a, x);
    StepIsForward(a, x);
    RunIsForward(Do(a, x), round.meanwhile);
    ForwardTransitive(a, Do(a, x), Run(Do(a, x), round.meanwhile));
  }

  /** So no row is counted twice: the total is the number of rows the call removed. */
  lemma {:induction false} TotalCountsRows(a: Auth, rounds: seq<Round>, batchSize: nat)
    requires AuthInv(a) && RoundsOk(a, rounds, batchSize)
    ensures RowsRemoved(rounds) == |AllRows(rounds)|
  {
    if |rounds| > 0 {
      var most, last := rounds[..|rounds| - 1], rounds[|rounds| - 1];
      TotalCountsRows(a, most, batchSize);
      RemovedStayRemoved(a, most, batchSize);
      assert AllRows(most) !! last.rows;
    }
  }

  lemma {:induction false} FullBatchesAddUp(rounds: seq<Round>, batchSize: nat)
    requires forall i | 0 <= i < |rounds| :: |rounds[i].rows| == batchSize
    ensures RowsRemoved(rounds) == batchSize * |rounds|
  {
    if |rounds| > 0 {
      var most := rounds[..|rounds| - 1];
      assert forall i | 0 <= i < |most| :: most[i] == rounds[i];
      FullBatchesAddUp(most, batchSize);
      assert batchSize * |rounds| == batchSize * |most| + batchSize;
    }
  }

  /** The call goes on only as long as tokens are issued: all batches but one are full of rows issued some time. */
  lemma {:induction false} BatchesAreBounded(a: Auth, rounds: seq<Round>, batchSize: nat)
    requires AuthInv(a) && RoundsOk(a, rounds, batchSize)
    requires forall i | 0 <= i < |rounds| - 1 :: |rounds[i].rows| == batchSize
    ensures rounds != [] ==> batchSize * (|rounds| - 1) <= |Through(a, rounds).issued|
  {
    if rounds != [] {
      var most := rounds[..|rounds| - 1];
      assert forall i | 0 <= i < |most| :: most[i] == rounds[i];
      FullBatchesAddUp(most, batchSize);
      TotalCountsRows(a, rounds, batchSize);
      RemovedStayRemoved(a, rounds, batchSize);
      Subset(AllRows(rounds), Through(a, rounds).issued);
    }
  }

  /** One round more. */
  lemma {:induction false} AppendRound(a: Auth, rounds: seq<Round>, round: Round, batchSize: nat)
    requires RoundsOk(a, rounds, batchSize) && IsBatch(Through(a, rounds), round.rows, batchSize)
    requires EnabledRun(Do(Through(a, rounds), Delete(round.rows)), round.meanwhile)
    ensures RoundsOk(a, rounds + [round], batchSize)
    ensures Through(a, rounds + [round]) == Run(Do(Through(a, rounds), Delete(round.rows)), round.meanwhile)
    ensures RowsRemoved(rounds + [round]) == RowsRemoved(rounds) + |round.rows|
  {
    assert (rounds + [round])[..|rounds|] == rounds;
  }

  lemma {:induction false} OneWait(a: Auth, rounds: seq<Round>, rows: set<Hash>, wait: Millis, batchSize: nat)
    requires RoundsOk(a, rounds, batchSize) && IsBatch(Through(a, rounds), rows, batchSize)
    ensures var more := rounds + [Round(rows, [Tick(wait)])];
            RoundsOk(a, more, batchSize) && Through(a, more) == Do(Do(Through(a, rounds), Delete(rows)), Tick(wait))
            && RowsRemoved(more) == RowsRemoved(rounds) + |rows|
  {
    RunOne(Do(Through(a, rounds), Delete(rows)), Tick(wait));
    AppendRound(a, rounds, Round(rows, [Tick(wait)]), batchSize);
  }

  lemma {:induction false} LastBatch(a: Auth, rounds: seq<Round>, rows: set<Hash>, batchSize: nat)
    requires RoundsOk(a, rounds, batchSize) && IsBatch(Through(a, rounds), rows, batchSize) && |rows| < batchSize
    requires forall i | 0 <= i < |rounds| :: |rounds[i].rows| == batchSize
    ensures var all := rounds + [Round(rows, [])];
            CleanupRun(a, all, batchSize) && Through(a, all) == Do(Through(a, rounds), Delete(rows))
            && RowsRemoved(all) == RowsRemoved(rounds) + |rows|
  {
    var b := Do(Through(a, rounds), Delete(rows));
    assert Run(b, []) == b && EnabledRun(b, []);
    AppendRound(a, rounds, Round(rows, []), batchSize);
  }
}
