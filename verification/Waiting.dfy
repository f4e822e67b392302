/** How long an outbox event can wait for its first attempt, with one processor and any provider answers. */
module Waiting {
  import opened Schema
  import opened Operations
  import opened Runs
  import opened Outbox

  /**
   * From the fetch of one batch to the fetch of the next: events in the batch were tried, others not; meanwhile
   * anything else may have delivered events or appended newer ones.
   */
  predicate Round(o: seq<OutboxEvent>, o': seq<OutboxEvent>) {
    && |o| <= |o'|
    && forall e | 0 <= e < |o| ::
         && o'[e].eventType == o[e].eventType
         && (o[e].delivered ==> o'[e].delivered)
         && (if e in Batch(o) then o'[e].delivered || o'[e].retryCount == o[e].retryCount + 1
             else o'[e].retryCount == o[e].retryCount)
  }

  // ---- batches while others commit

  /** Only the processor raises a retry count. */
  predicate NoRetries(ops: seq<Operation>) {
    forall i | 0 <= i < |ops| :: !ops[i].IncrementRetry?
  }

  /** None of the other operations touches a retry count or turns an event into another; new events are untried. */
  lemma {:induction false} OthersLeaveRetries(db: Db, op: Operation)
    requires !op.IncrementRetry?
    ensures LeavesRetries(db.outbox, After(db, op).outbox)
  {
    match op {
      case Settle(ctx, e, c) => SettlementLeavesRetries(db, ctx, e, Settled(c));
      case Fail(ctx, e) => SettlementLeavesRetries(db, ctx, e, Failed);
      case MarkDelivered(_) =>
      case _ => InitiationLeavesRetries(db, op);
    }
  }

  lemma {:induction false} SettlementLeavesRetries(db: Db, ctx: TransactionContext, e: EventId, v: Verdict)
    ensures match SettlementBody(db, ctx, e, v)
            case Ok(after) => LeavesRetries(db.outbox, after.outbox)
            case Err(_) => true
  {
  }

  lemma {:induction false} InitiationLeavesRetries(db: Db, op: Operation)
    requires HasKey(op)
    ensures LeavesRetries(db.outbox, After(db, op).outbox)
  {
  }

  predicate LeavesRetries(o: seq<OutboxEvent>, o': seq<OutboxEvent>) {
    && |o| <= |o'|
    && (forall e | 0 <= e < |o| :: o'[e] == o[e] || o'[e] == o[e].(delivered := true))
    && (forall e | |o| <= e < |o'| :: o'[e].retryCount == 0)
  }

  lemma {:induction false} LeavesRetriesTransitive(o1: seq<OutboxEvent>, o2: seq<OutboxEvent>, o3: seq<OutboxEvent>)
    requires LeavesRetries(o1, o2) && LeavesRetries(o2, o3)
    ensures LeavesRetries(o1, o3)
  {
  }

  lemma {:induction false} OtherRunsLeaveRetries(db: Db, ops: seq<Operation>)
    requires NoRetries(ops)
    ensures LeavesRetries(db.outbox, RunTo(db, ops).outbox)
  {
    if |ops| > 0 {
      var most := ops[..|ops| - 1];
      OtherRunsLeaveRetries(db, most);
      OthersLeaveRetries(RunTo(db, most), ops[|ops| - 1]);
      LeavesRetriesTransitive(db.outbox, RunTo(db, most).outbox, RunTo(db, ops).outbox);
    }
  }

  /** What others commit, slot by slot. */
  type Others = f: nat -> seq<Operation> | forall i :: NoRetries(f(i)) witness (_: nat) => []

  /** The events in order while others commit: others(0) before the first event, others(i) after the i-th. */
  function BusyEvents(db: Db, ids: seq<EventId>, answers: EventId -> Answer, others: Others): (after: Db)
    requires forall i | 0 <= i < |ids| :: ids[i] < |db.outbox|
    ensures |db.outbox| <= |after.outbox|
  {
    if |ids| == 0 then
      OtherRunsLeaveRetries(db, others(0));
      RunTo(db, others(0))
    else
      var last := ids[|ids| - 1];
      var before := BusyEvents(db, ids[..|ids| - 1], answers, others);
      var tried := ProcessEvent(before, last, answers(last));
      ProcessEventEffect(before, last, answers(last));
      OtherRunsLeaveRetries(tried, others(|ids|));
      RunTo(tried, others(|ids|))
  }

  /** From the fetch of one batch to the fetch of the next. */
  function BusyBatch(db: Db, answers: EventId -> Answer, others: Others): Db {
    BusyEvents(db, Batch(db.outbox), answers, others)
  }

  const NOBODY: Others := (_: nat) => []

  /** With nobody else about it is the processor's batch. */
  lemma {:induction false} QuietEvents(db: Db, ids: seq<EventId>, answers: EventId -> Answer)
    requires forall i | 0 <= i < |ids| :: ids[i] < |db.outbox|
    ensures BusyEvents(db, ids, answers, NOBODY) == ProcessEvents(db, ids, answers)
  {
    if |ids| > 0 {
      QuietEvents(db, ids[..|ids| - 1], answers);
    }
  }

  /** What became of an event: those in the batch were tried once. */
  predicate TriedOnce(was: OutboxEvent, now: OutboxEvent, inBatch: bool) {
    && now == was.(delivered := now.delivered, retryCount := now.retryCount)
    && (was.delivered ==> now.delivered)
    && was.retryCount <= now.retryCount <= was.retryCount + 1
    && (if inBatch then now.delivered || now.retryCount == was.retryCount + 1 else now.retryCount == was.retryCount)
  }

  lemma {:induction false} BusyEffect(db: Db, ids: seq<EventId>, answers: EventId -> Answer, others: Others, e: EventId)
    requires forall i | 0 <= i < |ids| :: ids[i] < |db.outbox|
    requires forall i, j | 0 <= i < j < |ids| :: ids[i] != ids[j]
    requires e < |db.outbox|
    ensures TriedOnce(db.outbox[e], BusyEvents(db, ids, answers, others).outbox[e], e in ids)
  {
    if |ids| == 0 {
      OtherRunsLeaveRetries(db, others(0));
    } else {
      var most, last := ids[..|ids| - 1], ids[|ids| - 1];
      BusyEffect(db, most, answers, others, e);
      assert ids == most + [last];
      assert e == last ==> e !in most;
      var before := BusyEvents(db, most, answers, others);
      BusyStep(before, last, answers(last), others(|ids|), e);
    }
  }

  lemma {:induction false} BusyStep(before: Db, last: EventId, answer: Answer, ops: seq<Operation>, e: EventId)
    requires last < |before.outbox| && e < |before.outbox| && NoRetries(ops)
    ensures var after := RunTo(ProcessEvent(before, last, answer), ops);
            e < |after.outbox| && TriedOnce(before.outbox[e], after.outbox[e], e == last)
  {
    ProcessEventEffect(before, last, answer);
    OtherRunsLeaveRetries(ProcessEvent(before, last, answer), ops);
  }

  /** A batch with its interruptions is a round: new requests, settlements by others and deliveries included. */
  lemma {:induction false} BusyBatchIsRound(db: Db, answers: EventId -> Answer, others: Others)
    ensures Round(db.outbox, BusyBatch(db, answers, others).outbox)
  {
    BatchIsDistinct(db.outbox);
    forall e | 0 <= e < |db.outbox|
      ensures TriedOnce(db.outbox[e], BusyBatch(db, answers, others).outbox[e], e in Batch(db.outbox))
    {
      BusyEffect(db, Batch(db.outbox), answers, others, e);
    }
  }

  predicate Untried(o: seq<OutboxEvent>, from: nat) {
    forall e | from <= e < |o| :: o[e].retryCount == 0
  }

  lemma {:induction false} NewEventsAreUntried(db: Db, ids: seq<EventId>, answers: EventId -> Answer, others: Others)
    requires forall i | 0 <= i < |ids| :: ids[i] < |db.outbox|
    ensures Untried(BusyEvents(db, ids, answers, others).outbox, |db.outbox|)
  {
    if |ids| == 0 {
      OtherRunsLeaveRetries(db, others(0));
    } else {
      var last := ids[|ids| - 1];
      var before := BusyEvents(db, ids[..|ids| - 1], answers, others);
      NewEventsAreUntried(db, ids[..|ids| - 1], answers, others);
      var tried := ProcessEvent(before, last, answers(last));
      ProcessEventEffect(before, last, answers(last));
      OtherRunsLeaveRetries(tried, others(|ids|));
      var after := RunTo(tried, others(|ids|));
      assert after == BusyEvents(db, ids, answers, others);
      forall e | |db.outbox| <= e < |after.outbox|
        ensures after.outbox[e].retryCount == 0
      {
        if e < |before.outbox| {
          assert tried.outbox[e] == before.outbox[e];
        }
      }
    }
  }

  /** Batch after batch, with anything else committing during and between them. */
  predicate BatchRun(dbs: seq<Db>, answers: seq<EventId -> Answer>, others: seq<Others>) {
    && |dbs| == |answers| + 1 == |others| + 1
    && forall k | 0 <= k < |others| :: dbs[k + 1] == BusyBatch(dbs[k], answers[k], others[k])
  }

  lemma {:induction false} BusyBatchKeepsCap(db: Db, answers: EventId -> Answer, others: Others)
    requires RetriesCapped(db.outbox)
    ensures RetriesCapped(BusyBatch(db, answers, others).outbox)
  {
    var ids := Batch(db.outbox);
    var after := BusyEvents(db, ids, answers, others).outbox;
    NewEventsAreUntried(db, ids, answers, others);
    forall e | 0 <= e < |after|
      ensures after[e].retryCount <= MAX_RETRIES
    {
      if e < |db.outbox| {
        BusyBatchKeepsOneCap(db, answers, others, e);
      } else {
        assert after[e].retryCount == 0;
      }
    }
  }

  lemma {:induction false} BusyBatchKeepsOneCap(db: Db, answers: EventId -> Answer, others: Others, e: EventId)
    requires e < |db.outbox| && db.outbox[e].retryCount <= MAX_RETRIES
    ensures BusyBatch(db, answers, others).outbox[e].retryCount <= MAX_RETRIES
  {
    BatchIsDistinct(db.outbox);
    BusyEffect(db, Batch(db.outbox), answers, others, e);
    InBatchIff(db.outbox, e);
  }

  /** With one processor no retry count ever exceeds MAX_RETRIES. */
  lemma {:induction false} RetriesStayCapped(dbs: seq<Db>, answers: seq<EventId -> Answer>, others: seq<Others>, k: nat)
    requires BatchRun(dbs, answers, others) && k < |dbs| && RetriesCapped(dbs[0].outbox)
    ensures RetriesCapped(dbs[k].outbox)
  {
    if k > 0 {
      RetriesStayCapped(dbs, answers, others, k - 1);
      BusyBatchKeepsCap(dbs[k - 1], answers[k - 1], others[k - 1]);
    }
  }

  // ---- rounds

  predicate Rounds(os: seq<seq<OutboxEvent>>) {
    |os| > 0 && forall k | 0 <= k < |os| - 1 :: Round(os[k], os[k + 1])
  }

  /** A round makes no event pending again, or older. */
  lemma {:induction false} RoundKeepsOrder(o: seq<OutboxEvent>, o': seq<OutboxEvent>, e: nat)
    requires Round(o, o') && e <= |o|
    ensures forall i | 0 <= i < e :: IsPending(o'[i]) ==> IsPending(o[i])
    ensures Older(o', e) <= Older(o, e)
  {
    if e > 0 {
      RoundKeepsOrder(o, o', e - 1);
      InBatchIff(o, e - 1);
    }
  }

  lemma {:induction false} RoundsKeepOrder(os: seq<seq<OutboxEvent>>, k: nat, e: nat)
    requires Rounds(os) && k < |os| && e <= |os[0]|
    ensures |os[0]| <= |os[k]| && Older(os[k], e) <= Older(os[0], e)
    ensures forall i | 0 <= i < e :: IsPending(os[k][i]) ==> IsPending(os[0][i])
  {
    if k > 0 {
      RoundsKeepOrder(os, k - 1, e);
      RoundKeepsOrder(os[k - 1], os[k], e);
    }
  }

  /** An event near the front is tried in every batch while it is pending. */
  lemma {:induction false} FrontIsTriedEachRound(os: seq<seq<OutboxEvent>>, k: nat, e: EventId)
    requires Rounds(os) && k < |os| && e < |os[0]| && Older(os[0], e) < BATCH_LIMIT
    ensures |os[0]| <= |os[k]| && (IsPending(os[k][e]) ==> k <= os[k][e].retryCount)
  {
    if k > 0 {
      FrontIsTriedEachRound(os, k - 1, e);
      RoundsKeepOrder(os, k - 1, e);
      assert Round(os[k - 1], os[k]);
      RoundKeepsOrder(os[k - 1], os[k], e + 1);
      InBatchIff(os[k - 1], e);
    }
  }

  /** Pending events among the first e that have at least BATCH_LIMIT older ones. */
  function Behind(o: seq<OutboxEvent>, e: nat): nat
    requires e <= |o|
  {
    if e == 0 then 0
    else Behind(o, e - 1) + (if IsPending(o[e - 1]) && BATCH_LIMIT <= Older(o, e - 1) then 1 else 0)
  }

  lemma {:induction false} BehindCount(o: seq<OutboxEvent>, e: nat)
    requires e <= |o|
    ensures Behind(o, e) == if Older(o, e) <= BATCH_LIMIT then 0 else Older(o, e) - BATCH_LIMIT
  {
    if e > 0 { BehindCount(o, e - 1); }
  }

  /** After MAX_RETRIES rounds the oldest BATCH_LIMIT events are all gone. */
  lemma {:induction false} FrontIsCleared(os: seq<seq<OutboxEvent>>, e: nat)
    requires Rounds(os) && |os| > MAX_RETRIES && e <= |os[0]|
    ensures |os[0]| <= |os[MAX_RETRIES]| && Older(os[MAX_RETRIES], e) <= Behind(os[0], e)
  {
    RoundsKeepOrder(os, MAX_RETRIES, e);
    if e > 0 {
      FrontIsCleared(os, e - 1);
      if Older(os[0], e - 1) < BATCH_LIMIT {
        FrontIsTriedEachRound(os, MAX_RETRIES, e - 1);
      }
    }
  }

  /** The batch, counted from 1, by which an event with k older pending ones has been tried. */
  function FirstAttemptBy(k: nat): nat {
    MAX_RETRIES * (k / BATCH_LIMIT) + 1
  }

  /** Tried in round k, or delivered by someone else before it. */
  predicate Served(os: seq<seq<OutboxEvent>>, e: EventId, k: nat)
    requires k < |os|
  {
    e in Batch(os[k]) || (e < |os[k]| && os[k][e].delivered)
  }

  lemma {:induction false} UnservedStaysPending(os: seq<seq<OutboxEvent>>, e: EventId, k: nat)
    requires Rounds(os) && k < |os| && e < |os[0]| && IsPending(os[0][e])
    requires forall j | 0 <= j <= k :: !Served(os, e, j)
    ensures |os[0]| <= |os[k]| && IsPending(os[k][e])
  {
    if k > 0 {
      UnservedStaysPending(os, e, k - 1);
      assert !Served(os, e, k - 1) && !Served(os, e, k);
      assert Round(os[k - 1], os[k]);
    }
  }

  /**
   * Bounded waiting: an event with k older pending ones is tried (or found delivered) no later than batch
   * 5 * (k / 100) + 1, whatever the providers answer and however many newer events arrive.
   */
  lemma {:induction false} BoundedWaiting(os: seq<seq<OutboxEvent>>, e: EventId)
    requires Rounds(os) && e < |os[0]| && IsPending(os[0][e])
    requires FirstAttemptBy(Older(os[0], e)) <= |os|
    ensures exists k | 0 <= k < FirstAttemptBy(Older(os[0], e)) :: Served(os, e, k)
    decreases Older(os[0], e)
  {
    var k := Older(os[0], e);
    if k < BATCH_LIMIT {
      InBatchIff(os[0], e);
      assert Served(os, e, 0);
    } else if exists j | 0 <= j <= MAX_RETRIES :: Served(os, e, j) {
      var j :| 0 <= j <= MAX_RETRIES && Served(os, e, j);
      assert j < FirstAttemptBy(k);
    } else {
      UnservedStaysPending(os, e, MAX_RETRIES);
      FrontIsCleared(os, e);
      BehindCount(os[0], e);
      var rest := os[MAX_RETRIES..];
      forall i | 0 <= i < |rest| - 1
        ensures Round(rest[i], rest[i + 1])
      {
        assert Round(os[i + MAX_RETRIES], os[i + MAX_RETRIES + 1]);
      }
      LaterIsNoLater(Older(rest[0], e), k);
      BoundedWaiting(rest, e);
      var j :| 0 <= j < FirstAttemptBy(Older(rest[0], e)) && Served(rest, e, j);
      assert Served(os, e, j + MAX_RETRIES);
    }
  }

  /** The same for the processor itself: batch after batch, with anything else committing during and between them. */
  lemma {:induction false} EveryEventIsTried(dbs: seq<Db>, answers: seq<EventId -> Answer>, others: seq<Others>,
                                             e: EventId)
    requires BatchRun(dbs, answers, others)
    requires e < |dbs[0].outbox| && IsPending(dbs[0].outbox[e]) && FirstAttemptBy(Older(dbs[0].outbox, e)) <= |dbs|
    ensures exists k | 0 <= k < FirstAttemptBy(Older(dbs[0].outbox, e)) ::
              e in Batch(dbs[k].outbox) || (e < |dbs[k].outbox| && dbs[k].outbox[e].delivered)
  {
    var os := seq(|dbs|, i requires 0 <= i < |dbs| => dbs[i].outbox);
    forall i | 0 <= i < |os| - 1
      ensures Round(os[i], os[i + 1])
    {
      BusyBatchIsRound(dbs[i], answers[i], others[i]);
    }
    BoundedWaiting(os, e);
    var k :| 0 <= k < FirstAttemptBy(Older(os[0], e)) && Served(os, e, k);
    assert os[k] == dbs[k].outbox;
  }

  /**
   * From the request on: the event of a committed confirmDeposit or createPayout is eligible at once, and with n
   * eligible events before it it is fetched, or found delivered, no later than batch 5 * (n / 100) + 1.
   */
  lemma {:induction false} NewRequestIsTried(db: Db, op: Operation, dbs: seq<Db>, answers: seq<EventId -> Answer>,
                                             others: seq<Others>)
    requires (op.ConfirmDeposit? || op.CreatePayout?) && Body(db, op).Ok?
    requires BatchRun(dbs, answers, others) && dbs[0] == After(db, op)
    requires 5 * (|EligibleBefore(db.outbox, |db.outbox|)| / 100) + 1 <= |dbs|
    ensures var e := |db.outbox|;
            && e < |dbs[0].outbox| && dbs[0].outbox[e].tx == |db.txs| && Eligible(dbs[0].outbox[e])
            && exists k | 0 <= k < 5 * (|EligibleBefore(db.outbox, e)| / 100) + 1 ::
                 e in Batch(dbs[k].outbox) || (e < |dbs[k].outbox| && dbs[k].outbox[e].delivered)
  {
    var e := |db.outbox|;
    NewEventIsEligible(db, op);
    assert EligibleBefore(dbs[0].outbox, e) == EligibleBefore(db.outbox, e);
    OlderIsCount(dbs[0].outbox, e);
    EveryEventIsTried(dbs, answers, others, e);
  }

  lemma {:induction false} NewEventIsEligible(db: Db, op: Operation)
    requires (op.ConfirmDeposit? || op.CreatePayout?) && Body(db, op).Ok?
    ensures var o, e := After(db, op).outbox, |db.outbox|;
            && |o| == e + 1 && o[..e] == db.outbox && o[e].tx == |db.txs|
            && !o[e].delivered && o[e].retryCount == 0
            && o[e].eventType == if op.ConfirmDeposit? then DEPOSIT_INITIATED else WITHDRAWAL_INITIATED
  {
  }

  lemma {:induction false} LaterIsNoLater(a: nat, k: nat)
    requires BATCH_LIMIT <= k && a <= k - BATCH_LIMIT
    ensures MAX_RETRIES + FirstAttemptBy(a) <= FirstAttemptBy(k)
  {
    assert a / 100 <= (k - 100) / 100 == k / 100 - 1;
  }
}
