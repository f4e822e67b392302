/** The outbox processor: what a batch does to the tables, how it drains the outbox, and how long an event can wait. */
module Outbox {
  import opened Schema
  import opened Sums
  import opened Operations
  import opened Invariants
  import opened Runs

  const BATCH_LIMIT: nat := 100
  const MAX_RETRIES: nat := 5

  /** What provider.process did: threw, or returned a ProviderResult. */
  datatype Answer = Throws | Answered(success: bool, requiresWebhook: bool, customer: Option<CustomerId>)

  /** findPendingProviderEvents' filter. */
  predicate IsPending(e: OutboxEvent) {
    !e.delivered && e.retryCount < MAX_RETRIES && e.eventType != TRANSFER_SETTLED
  }

  /** How many pending events are older than event e. */
  function Older(o: seq<OutboxEvent>, e: nat): nat
    requires e <= |o|
  {
    if e == 0 then 0 else Older(o, e - 1) + (if IsPending(o[e - 1]) then 1 else 0)
  }

  /** The pending events among the first n, oldest first. */
  function PendingAmong(o: seq<OutboxEvent>, n: nat): (ids: seq<EventId>)
    requires n <= |o|
    ensures |ids| == Older(o, n)
    ensures forall i | 0 <= i < |ids| :: ids[i] < n && IsPending(o[ids[i]]) && Older(o, ids[i]) == i
  {
    if n == 0 then [] else PendingAmong(o, n - 1) + (if IsPending(o[n - 1]) then [n - 1] else [])
  }

  /** The batch: the oldest pending events, at most BATCH_LIMIT of them. */
  function Batch(o: seq<OutboxEvent>): seq<EventId> {
    var ids := PendingAmong(o, |o|);
    if |ids| <= BATCH_LIMIT then ids else ids[..BATCH_LIMIT]
  }

  lemma {:induction false} OlderGrows(o: seq<OutboxEvent>, a: nat, b: nat)
    requires a <= b <= |o|
    ensures Older(o, a) <= Older(o, b)
    ensures a < b && IsPending(o[a]) ==> Older(o, a) < Older(o, b)
    decreases b - a
  {
    if a < b { OlderGrows(o, a, b - 1); }
  }

  /** Undelivered, tried fewer than five times, and announcing a deposit or a withdrawal. */
  predicate Eligible(e: OutboxEvent) {
    !e.delivered && e.retryCount < 5 && (e.eventType == DEPOSIT_INITIATED || e.eventType == WITHDRAWAL_INITIATED)
  }

  /** The eligible events before event e. */
  function EligibleBefore(o: seq<OutboxEvent>, e: nat): set<EventId>
    requires e <= |o|
  {
    set i: EventId | 0 <= i < e && Eligible(o[i])
  }

  lemma {:induction false} OlderIsCount(o: seq<OutboxEvent>, e: nat)
    requires e <= |o|
    ensures Older(o, e) == |EligibleBefore(o, e)|
  {
    if e > 0 {
      OlderIsCount(o, e - 1);
      var last := if Eligible(o[e - 1]) then {e - 1} else {};
      assert EligibleBefore(o, e) == EligibleBefore(o, e - 1) + last;
    }
  }

  /**
   * findPendingProviderEvents on the columns: an event is fetched exactly when it is undelivered, tried fewer than
   * five times, announces a deposit or a withdrawal, and fewer than 100 earlier events do the same.
   */
  lemma {:induction false} FetchedIff(o: seq<OutboxEvent>, e: EventId)
    ensures e in Batch(o) <==>
              && e < |o| && !o[e].delivered && o[e].retryCount < 5
              && (o[e].eventType == DEPOSIT_INITIATED || o[e].eventType == WITHDRAWAL_INITIATED)
              && |EligibleBefore(o, e)| < 100
  {
    InBatchIff(o, e);
    if e < |o| { OlderIsCount(o, e); }
  }

  /** The batch is in the order in which the events were created. */
  lemma {:induction false} FetchedOldestFirst(o: seq<OutboxEvent>, i: nat, j: nat)
    requires i < j < |Batch(o)|
    ensures Batch(o)[i] < Batch(o)[j] < |o|
  {
    var ids := PendingAmong(o, |o|);
    assert Older(o, ids[i]) == i && Older(o, ids[j]) == j;
    if ids[j] <= ids[i] { OlderGrows(o, ids[j], ids[i]); }
  }

  /** An event is in the batch exactly when it is pending with fewer than BATCH_LIMIT older pending ones. */
  lemma {:induction false} InBatchIff(o: seq<OutboxEvent>, e: EventId)
    ensures e in Batch(o) <==> e < |o| && IsPending(o[e]) && Older(o, e) < BATCH_LIMIT
  {
    var ids := PendingAmong(o, |o|);
    if e < |o| && IsPending(o[e]) {
      OlderGrows(o, e, |o|);
      var i := Older(o, e);
      var f := ids[i];
      if e < f { OlderGrows(o, e, f); } else if f < e { OlderGrows(o, f, e); }
      assert ids[Older(o, e)] == e;
      if Older(o, e) < BATCH_LIMIT {
        assert Batch(o)[Older(o, e)] == e;
      }
    }
  }

  lemma {:induction false} BatchIsDistinct(o: seq<OutboxEvent>)
    ensures forall i, j | 0 <= i < j < |Batch(o)| :: Batch(o)[i] != Batch(o)[j]
  {
    var ids := PendingAmong(o, |o|);
    forall i, j | 0 <= i < j < |Batch(o)|
      ensures Batch(o)[i] != Batch(o)[j]
    {
      assert Older(o, ids[i]) == i && Older(o, ids[j]) == j;
    }
  }

  // ---- one event

  /** processEvent's decision: the operation it ends with, given the provider's answer. */
  function Decision(db: Db, e: EventId, answer: Answer): Operation
    requires e < |db.outbox|
  {
    var event := db.outbox[e];
    if event.payloadUser.None? || |db.txs| <= event.tx || !Resolvable(db.txs[event.tx].provider) || answer.Throws?
    then IncrementRetry(e)
    else if answer.success && answer.requiresWebhook then MarkDelivered(e)
    else
      var ctx := ContextOf(event.tx, event.payloadUser.value, db.txs[event.tx]);
      var op := if answer.success then Settle(ctx, e, answer.customer) else Fail(ctx, e);
      if Body(db, op).Ok? then op else IncrementRetry(e)
  }

  function ProcessEvent(db: Db, e: EventId, answer: Answer): Db
    requires e < |db.outbox|
  {
    After(db, Decision(db, e, answer))
  }

  /** The decision, once the provider has answered for a resolvable transaction. */
  lemma {:induction false} AnsweredDecision(db: Db, e: EventId, answer: Answer)
    requires e < |db.outbox| && answer.Answered?
    requires db.outbox[e].payloadUser.Some? && db.outbox[e].tx < |db.txs|
    requires Resolvable(db.txs[db.outbox[e].tx].provider)
    ensures var ctx := ContextOf(db.outbox[e].tx, db.outbox[e].payloadUser.value, db.txs[db.outbox[e].tx]);
            var op := if answer.success then Settle(ctx, e, answer.customer) else Fail(ctx, e);
            ProcessEvent(db, e, answer) ==
            if answer.success && answer.requiresWebhook then After(db, MarkDelivered(e))
            else if Body(db, op).Ok? then After(db, op)
            else After(db, IncrementRetry(e))
  {
  }

  /** Every processed event ends delivered or with one more retry; no other event changes. */
  lemma {:induction false} ProcessEventEffect(db: Db, e: EventId, answer: Answer)
    requires e < |db.outbox|
    ensures var after := ProcessEvent(db, e, answer);
            && |after.outbox| == |db.outbox|
            && (after.outbox == db.outbox[e := db.outbox[e].(delivered := true)]
                || after.outbox == db.outbox[e := db.outbox[e].(retryCount := db.outbox[e].retryCount + 1)])
  {
    var op := Decision(db, e, answer);
    if op.Settle? || op.Fail? {
      assert After(db, op).outbox == db.outbox[e := db.outbox[e].(delivered := true)];
    }
  }

  /** INTERNAL rows have no provider to call: every attempt is a retry, whatever the answer would have been. */
  lemma {:induction false} InternalIsOnlyRetried(db: Db, e: EventId, answer: Answer)
    requires Inv(db) && e < |db.outbox| && db.txs[e].provider == Some(INTERNAL)
    ensures Decision(db, e, answer) == IncrementRetry(e)
  {
    assert OutboxAgrees(db);
  }

  /** A PayPal deposit whose customer id is another user's is retried, although the provider has taken the money. */
  lemma {:induction false} TakenCustomerIsRetried(db: Db, e: EventId, c: CustomerId)
    requires Inv(db) && e < |db.outbox| && db.txs[e].kind == DEPOSIT && db.txs[e].provider == Some(PAYPAL)
    requires db.outbox[e].payloadUser.Some? && HeldByAnother(db, db.outbox[e].payloadUser.value, c)
    ensures Decision(db, e, Answered(true, false, Some(c))) == IncrementRetry(e)
  {
    OwnContextIsCallable(db, e);
    var ctx := ContextOf(e, db.outbox[e].payloadUser.value, db.txs[e]);
    TakenCustomerUndoes(db, ctx, e, c);
  }

  lemma {:induction false} DecisionIsCallable(db: Db, e: EventId, answer: Answer)
    requires OutboxAgrees(db) && e < |db.outbox|
    ensures Callable(db, Decision(db, e, answer)) && Body(db, Decision(db, e, answer)).Ok?
  {
  }

  // ---- a batch

  /** The events in order, each answered as `answers` says, each seeing what the earlier ones did. */
  function ProcessEvents(db: Db, ids: seq<EventId>, answers: EventId -> Answer): Db
    requires forall i | 0 <= i < |ids| :: ids[i] < |db.outbox|
    ensures |ProcessEvents(db, ids, answers).outbox| == |db.outbox|
  {
    if |ids| == 0 then db
    else
      var most := ProcessEvents(db, ids[..|ids| - 1], answers);
      ProcessEventEffect(most, ids[|ids| - 1], answers(ids[|ids| - 1]));
      ProcessEvent(most, ids[|ids| - 1], answers(ids[|ids| - 1]))
  }

  function ProcessBatch(db: Db, answers: EventId -> Answer): Db {
    ProcessEvents(db, Batch(db.outbox), answers)
  }

  lemma {:induction false} EventsEffect(db: Db, ids: seq<EventId>, answers: EventId -> Answer, e: EventId)
    requires forall i | 0 <= i < |ids| :: ids[i] < |db.outbox|
    requires forall i, j | 0 <= i < j < |ids| :: ids[i] != ids[j]
    requires e < |db.outbox|
    ensures var was, now := db.outbox[e], ProcessEvents(db, ids, answers).outbox[e];
            if e in ids
            then now == was.(delivered := true) || now == was.(retryCount := was.retryCount + 1)
            else now == was
  {
    if |ids| > 0 {
      var most, last := ids[..|ids| - 1], ids[|ids| - 1];
      EventsEffect(db, most, answers, e);
      InFrontOrLast(ids, e);
      EventEffectAt(ProcessEvents(db, most, answers), last, answers(last), e);
    }
  }

  lemma {:induction false} InFrontOrLast(ids: seq<EventId>, e: EventId)
    requires |ids| > 0 && forall i, j | 0 <= i < j < |ids| :: ids[i] != ids[j]
    ensures var most, last := ids[..|ids| - 1], ids[|ids| - 1];
            (e in ids <==> e in most || e == last) && last !in most
  {
    assert ids == ids[..|ids| - 1] + [ids[|ids| - 1]];
  }

  lemma {:induction false} EventEffectAt(db: Db, last: EventId, answer: Answer, e: EventId)
    requires last < |db.outbox| && e < |db.outbox|
    ensures |ProcessEvent(db, last, answer).outbox| == |db.outbox|
    ensures var was, now := db.outbox[e], ProcessEvent(db, last, answer).outbox[e];
            if e == last
            then now == was.(delivered := true) || now == was.(retryCount := was.retryCount + 1)
            else now == was
  {
    ProcessEventEffect(db, last, answer);
  }

  /** The first n events, then one more. */
  lemma {:induction false} OneEventMore(db: Db, ids: seq<EventId>, answers: EventId -> Answer, n: nat)
    requires n < |ids| && forall i | 0 <= i < |ids| :: ids[i] < |db.outbox|
    ensures ProcessEvents(db, ids[..n + 1], answers)
            == ProcessEvent(ProcessEvents(db, ids[..n], answers), ids[n], answers(ids[n]))
  {
    assert ids[..n + 1][..n] == ids[..n];
  }

  /** A batch is a run of operations: all money invariants survive whatever the providers answer. */
  lemma {:induction false} EventsKeepInv(db: Db, ids: seq<EventId>, answers: EventId -> Answer)
    requires Inv(db) && forall i | 0 <= i < |ids| :: ids[i] < |db.outbox|
    ensures Inv(ProcessEvents(db, ids, answers)) && Extends(db, ProcessEvents(db, ids, answers))
  {
    if |ids| > 0 {
      var most := ProcessEvents(db, ids[..|ids| - 1], answers);
      var last := ids[|ids| - 1];
      EventsKeepInv(db, ids[..|ids| - 1], answers);
      DecisionIsCallable(most, last, answers(last));
      StepKeepsInv(most, Decision(most, last, answers(last)));
      StepExtends(most, Decision(most, last, answers(last)));
      ExtendsTransitive(db, most, ProcessEvents(db, ids, answers));
    }
  }

  // ---- draining

  /** Attempts a pending event has left. */
  function AttemptsLeft(): OutboxEvent -> int {
    (e: OutboxEvent) => if IsPending(e) then MAX_RETRIES - e.retryCount else 0
  }

  function Budget(o: seq<OutboxEvent>): int {
    Sum(o, AttemptsLeft())
  }

  lemma {:induction false} EventsDrain(db: Db, ids: seq<EventId>, answers: EventId -> Answer)
    requires forall i | 0 <= i < |ids| :: ids[i] < |db.outbox| && IsPending(db.outbox[ids[i]])
    requires forall i, j | 0 <= i < j < |ids| :: ids[i] != ids[j]
    ensures Budget(ProcessEvents(db, ids, answers).outbox) <= Budget(db.outbox) - |ids|
  {
    if |ids| > 0 {
      var most, last := ids[..|ids| - 1], ids[|ids| - 1];
      EventsDrain(db, most, answers);
      EventsEffect(db, most, answers, last);
      var mid := ProcessEvents(db, most, answers);
      assert last !in most;
      ProcessEventEffect(mid, last, answers(last));
      var after := ProcessEvents(db, ids, answers);
      SumUpdate(mid.outbox, last, after.outbox[last], AttemptsLeft());
      assert after.outbox == mid.outbox[last := after.outbox[last]];
    }
  }

  /**
   * Each batch uses up at least one attempt per event in it, so undelivered events run out of attempts or get
   * delivered.
   */
  lemma {:induction false} BatchDrains(db: Db, answers: EventId -> Answer)
    ensures Budget(ProcessBatch(db, answers).outbox) <= Budget(db.outbox) - |Batch(db.outbox)|
    ensures Batch(db.outbox) == [] <==> forall e | 0 <= e < |db.outbox| :: !IsPending(db.outbox[e])
  {
    BatchIsDistinct(db.outbox);
    EventsDrain(db, Batch(db.outbox), answers);
    if Batch(db.outbox) == [] {
      forall e | 0 <= e < |db.outbox|
        ensures !IsPending(db.outbox[e])
      {
        OlderGrows(db.outbox, e, |db.outbox|);
      }
    } else {
      InBatchIff(db.outbox, Batch(db.outbox)[0]);
    }
  }

  predicate RetriesCapped(o: seq<OutboxEvent>) {
    forall e | 0 <= e < |o| :: o[e].retryCount <= MAX_RETRIES
  }

  /** Money still in flight and outbox agree: an undelivered deposit or withdrawal event means the row is INITIATED. */
  lemma {:induction false} UndeliveredIsInitiated(db: Db, ops: seq<Operation>, e: EventId)
    requires Fresh(db) && CallableRun(db, ops)
    requires e < |RunTo(db, ops).outbox| && !RunTo(db, ops).outbox[e].delivered
    ensures var now := RunTo(db, ops);
            now.outbox[e].tx < |now.txs|
            && (now.outbox[e].eventType != TRANSFER_SETTLED ==> now.txs[now.outbox[e].tx].status == INITIATED)
  {
    FreshInv(db);
    RunKeepsInv(db, ops);
    var now := RunTo(db, ops);
    assert OutboxAgrees(now);
    assert TxWellFormed(now.txs[e], now.wallets.Keys);
  }
}
