/** The waiting bound is attained: a run of the processor whose provider always throws. */
module Stubborn {
  import opened Schema
  import opened Sums
  import opened Operations
  import opened Invariants
  import opened Outbox
  import opened Waiting

  // ---- the outbox, batch after batch

  /** Hundred by hundred, each event is tried five times in a row. */
  function TriesBy(i: nat, j: nat): nat {
    var start := MAX_RETRIES * (i / BATCH_LIMIT);
    if j < start then 0 else if start + MAX_RETRIES < j then MAX_RETRIES else j - start
  }

  /** An outbox of n deposit events after j batches. */
  function Events(n: nat, j: nat): seq<OutboxEvent> {
    seq(n, (i: nat) => OutboxEvent(i, DEPOSIT_INITIATED, Some(i), false, TriesBy(i, j)))
  }

  lemma {:induction false} EventsOlder(n: nat, j: nat, e: nat)
    requires e <= n
    ensures Older(Events(n, j), e)
            == if e <= BATCH_LIMIT * (j / MAX_RETRIES) then 0 else e - BATCH_LIMIT * (j / MAX_RETRIES)
  {
    if e > 0 {
      EventsOlder(n, j, e - 1);
      assert IsPending(Events(n, j)[e - 1]) <==> j / 5 <= (e - 1) / 100;
    }
  }

  lemma {:induction false} EventsBatch(n: nat, j: nat, e: nat)
    requires e < n
    ensures e in Batch(Events(n, j)) <==> e / BATCH_LIMIT == j / MAX_RETRIES
  {
    InBatchIff(Events(n, j), e);
    EventsOlder(n, j, e);
    assert IsPending(Events(n, j)[e]) <==> j / 5 <= e / 100;
  }

  lemma {:induction false} EventsTried(n: nat, j: nat, e: nat)
    requires e < n
    ensures TriesBy(e, j + 1) == TriesBy(e, j) + (if e in Batch(Events(n, j)) then 1 else 0)
  {
    EventsBatch(n, j, e);
  }

  // ---- a sound database around it: n users, each with one open deposit of one unit

  function Rows(n: nat): seq<Transaction> {
    seq(n, (i: nat) => Transaction(i, DEPOSIT, INITIATED, 1, USD, None, Some(i), Some(STRIPE)))
  }

  function Wallets(n: nat): (wallets: map<WalletId, Wallet>)
    ensures forall w: WalletId :: w in wallets <==> w < n
    ensures forall w | w in wallets :: wallets[w] == Wallet(w, USD, ACTIVE, 0, 0, 1)
  {
    if n == 0 then map[] else Wallets(n - 1)[n - 1 := Wallet(n - 1, USD, ACTIVE, 0, 0, 1)]
  }

  function Owners(n: nat): (owners: map<UserId, WalletId>)
    ensures forall u: UserId :: u in owners <==> u < n
    ensures forall u | u in owners :: owners[u] == u
  {
    if n == 0 then map[] else Owners(n - 1)[n - 1 := n - 1]
  }

  function Deposits(n: nat, j: nat): Db {
    Db(Wallets(n), Owners(n), map[], Rows(n), [], [], Events(n, j))
  }

  lemma {:induction false} RowsAddUp(n: nat, w: WalletId)
    ensures Sum(Rows(n), PendingShare(w)) == (if w < n then 1 else 0) == Sum(Rows(n), UnpostedShare(w))
    ensures Sum(Rows(n), LockedShare(w)) == 0 == Sum(Rows(n), AvailableShare(w))
  {
    if n > 0 {
      RowsAddUp(n - 1, w);
      assert Rows(n) == Rows(n - 1) + [Rows(n)[n - 1]];
      var last := Rows(n)[n - 1];
      SumAppend(Rows(n - 1), last, PendingShare(w));
      SumAppend(Rows(n - 1), last, UnpostedShare(w));
      SumAppend(Rows(n - 1), last, LockedShare(w));
      SumAppend(Rows(n - 1), last, AvailableShare(w));
    }
  }

  lemma {:induction false} DepositsAreSound(n: nat, j: nat, w: WalletId)
    requires w < n
    ensures w in Deposits(n, j).wallets && WalletSound(Deposits(n, j), w)
  {
    RowsAddUp(n, w);
  }

  lemma {:induction false} DepositsFitTogether(n: nat, j: nat)
    ensures var db := Deposits(n, j);
            && OwnersConsistent(db) && TxsWellFormed(db) && UniqueKeys(db) && LogsAgree(db) && OutboxAgrees(db)
            && LedgerWellFormed(db) && UniqueCustomers(db) && CurrenciesAgree(db)
  {
  }

  lemma {:induction false} DepositsInv(n: nat, j: nat)
    ensures Inv(Deposits(n, j))
  {
    DepositsFitTogether(n, j);
    forall w | w in Deposits(n, j).wallets
      ensures WalletSound(Deposits(n, j), w)
    {
      DepositsAreSound(n, j, w);
    }
  }

  // ---- one batch

  const ALL_THROW: EventId -> Answer := (_: EventId) => Throws

  /** `after` is `db` with one more retry for the events in `ids`. */
  predicate Retried(db: Db, after: Db, ids: seq<EventId>) {
    && after == db.(outbox := after.outbox) && |after.outbox| == |db.outbox|
    && forall e | 0 <= e < |db.outbox| ::
         after.outbox[e] == db.outbox[e].(retryCount := db.outbox[e].retryCount + (if e in ids then 1 else 0))
  }

  lemma {:induction false} OneMoreRetried(db: Db, before: Db, most: seq<EventId>, last: EventId)
    requires Retried(db, before, most) && last !in most && last < |db.outbox|
    ensures Retried(db, After(before, IncrementRetry(last)), most + [last])
  {
    var after := After(before, IncrementRetry(last));
    forall e | 0 <= e < |db.outbox|
      ensures after.outbox[e]
              == db.outbox[e].(retryCount := db.outbox[e].retryCount + (if e in most + [last] then 1 else 0))
    {
      assert e in most + [last] <==> e in most || e == last;
    }
  }

  /** Every event of the batch gets one more retry; nothing else happens. */
  lemma {:induction false} ThrowingEvents(db: Db, ids: seq<EventId>)
    requires forall i | 0 <= i < |ids| :: ids[i] < |db.outbox|
    requires forall i, j | 0 <= i < j < |ids| :: ids[i] != ids[j]
    ensures Retried(db, ProcessEvents(db, ids, ALL_THROW), ids)
  {
    if |ids| > 0 {
      var most, last := ids[..|ids| - 1], ids[|ids| - 1];
      ThrowingEvents(db, most);
      assert ids == most + [last] && last !in most;
      OneMoreRetried(db, ProcessEvents(db, most, ALL_THROW), most, last);
    }
  }

  lemma {:induction false} ThrowingBatch(db: Db)
    ensures Retried(db, BusyBatch(db, ALL_THROW, NOBODY), Batch(db.outbox))
  {
    BatchIsDistinct(db.outbox);
    QuietEvents(db, Batch(db.outbox), ALL_THROW);
    ThrowingEvents(db, Batch(db.outbox));
  }

  lemma {:induction false} RetriedIsNext(n: nat, j: nat, o: seq<OutboxEvent>)
    requires |o| == n
    requires forall e | 0 <= e < n ::
               o[e] == Events(n, j)[e].(retryCount := TriesBy(e, j) + (if e in Batch(Events(n, j)) then 1 else 0))
    ensures o == Events(n, j + 1)
  {
    forall e | 0 <= e < n
      ensures o[e] == Events(n, j + 1)[e]
    {
      EventsTried(n, j, e);
    }
  }

  lemma {:induction false} OneBatch(n: nat, j: nat)
    ensures BusyBatch(Deposits(n, j), ALL_THROW, NOBODY) == Deposits(n, j + 1)
  {
    ThrowingBatch(Deposits(n, j));
    NextDeposits(n, j, BusyBatch(Deposits(n, j), ALL_THROW, NOBODY));
  }

  lemma {:induction false} NextDeposits(n: nat, j: nat, after: Db)
    requires Retried(Deposits(n, j), after, Batch(Events(n, j)))
    ensures after == Deposits(n, j + 1)
  {
    assert Deposits(n, j).outbox == Events(n, j);
    RetriedIsNext(n, j, after.outbox);
  }

  // ---- the run

  lemma {:induction false} NotYetTried(k: nat, j: nat)
    requires j < MAX_RETRIES * (k / BATCH_LIMIT)
    ensures k !in Batch(Deposits(k + 1, j).outbox) && !Deposits(k + 1, j).outbox[k].delivered
  {
    EventsBatch(k + 1, j, k);
  }

  function Run(k: nat): (dbs: seq<Db>)
    ensures |dbs| == FirstAttemptBy(k) && forall j | 0 <= j < |dbs| :: dbs[j] == Deposits(k + 1, j)
  {
    seq(FirstAttemptBy(k), (j: nat) => Deposits(k + 1, j))
  }

  lemma {:induction false} RunIsOfBatches(k: nat, answers: seq<EventId -> Answer>, others: seq<Others>)
    requires |answers| == |others| == FirstAttemptBy(k) - 1
    requires forall j | 0 <= j < |answers| :: answers[j] == ALL_THROW && others[j] == NOBODY
    ensures BatchRun(Run(k), answers, others)
  {
    var dbs := Run(k);
    forall j | 0 <= j < |others|
      ensures dbs[j + 1] == BusyBatch(dbs[j], answers[j], others[j])
    {
      BatchOfRun(k, j, dbs);
    }
  }

  lemma {:induction false} BatchOfRun(k: nat, j: nat, dbs: seq<Db>)
    requires j + 1 < |dbs| && dbs[j] == Deposits(k + 1, j) && dbs[j + 1] == Deposits(k + 1, j + 1)
    ensures dbs[j + 1] == BusyBatch(dbs[j], ALL_THROW, NOBODY)
  {
    OneBatch(k + 1, j);
  }

  lemma {:induction false} StartOfRun(k: nat)
    ensures var start := Run(k)[0];
            Inv(start) && k < |start.outbox| && IsPending(start.outbox[k]) && Older(start.outbox, k) == k
  {
    assert Run(k)[0] == Deposits(k + 1, 0);
    DepositsInv(k + 1, 0);
    LastEvent(k);
  }

  lemma {:induction false} LastEvent(k: nat)
    ensures var o := Deposits(k + 1, 0).outbox;
            k < |o| && IsPending(o[k]) && Older(o, k) == k
  {
    EventsOlder(k + 1, 0, k);
  }

  lemma {:induction false} NotTriedInRun(k: nat, j: nat)
    requires j < FirstAttemptBy(k) - 1
    ensures var outbox := Run(k)[j].outbox;
            k !in Batch(outbox) && k < |outbox| && !outbox[k].delivered
  {
    assert Run(k)[j] == Deposits(k + 1, j);
    NotYetTried(k, j);
  }

  /**
   * For every k: batches of the processor from a sound database, in which an event with k older ones is not tried
   * before batch 5 * (k / 100) + 1.
   */
  lemma {:induction false} BoundIsAttained(k: nat)
    returns (dbs: seq<Db>, answers: seq<EventId -> Answer>, others: seq<Others>)
    ensures BatchRun(dbs, answers, others) && Inv(dbs[0]) && |dbs| == FirstAttemptBy(k)
    ensures k < |dbs[0].outbox| && IsPending(dbs[0].outbox[k]) && Older(dbs[0].outbox, k) == k
    ensures forall j | 0 <= j < |dbs| - 1 ::
              k !in Batch(dbs[j].outbox) && k < |dbs[j].outbox| && !dbs[j].outbox[k].delivered
  {
    dbs := Run(k);
    answers := seq(|dbs| - 1, (_: nat) => ALL_THROW);
    others := seq(|dbs| - 1, (_: nat) => NOBODY);
    RunIsOfBatches(k, answers, others);
    StartOfRun(k);
    forall j | 0 <= j < |dbs| - 1
      ensures k !in Batch(dbs[j].outbox) && k < |dbs[j].outbox| && !dbs[j].outbox[k].delivered
    {
      NotTriedInRun(k, j);
    }
  }
}
