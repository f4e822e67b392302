/** payment-processor.service.ts: the batch loop on the tables in place. */
module Processor {
  import opened Schema
  import opened Operations
  import opened Invariants
  import opened Runs
  import opened Database
  import opened Services
  import opened Outbox

  class PaymentProcessorService {
    const store: Store
    const settlement: PaymentSettlementService

    predicate Valid() {
      settlement.store == store
    }

    constructor (store: Store, settlement: PaymentSettlementService)
      requires settlement.store == store
      ensures Valid() && this.store == store
    {
      this.store := store;
      this.settlement := settlement;
    }

    /** One event; `answer` is what the provider call does, if it comes to one. Every exception ends in a retry. */
    method ProcessEvent(e: EventId, answer: Answer)
      requires Valid() && e < |store.outbox|
      modifies store
      ensures store.Tables() == Outbox.ProcessEvent(old(store.Tables()), e, answer)
    {
      var event := store.outbox[e];
      if event.payloadUser.None? || |store.txs| <= event.tx {
        var _ := store.IncrementRetry(e);
        return;
      }
      var row := store.txs[event.tx];
      if row.provider.None? || row.provider.value == INTERNAL || answer.Throws? {
        var _ := store.IncrementRetry(e);
        return;
      }
      var ctx := ContextOf(event.tx, event.payloadUser.value, row);
      AnsweredDecision(store.Tables(), e, answer);
      SettlementsPerform(store.Tables(), Settle(ctx, e, answer.customer));
      SettlementsPerform(store.Tables(), Fail(ctx, e));
      var outcome := Committed;
      if answer.requiresWebhook && answer.success {
        var _ := store.MarkDelivered(e);
      } else if answer.requiresWebhook && !answer.success {
        outcome := settlement.Fail(ctx, e);
      } else if answer.success {
        outcome := settlement.Settle(ctx, e, answer.customer);
      } else {
        outcome := settlement.Fail(ctx, e);
      }
      if outcome.Rejected? {
        var _ := store.IncrementRetry(e);
      }
    }

    /** findPendingProviderEvents(100), then one event after the other. */
    method ProcessBatch(answers: EventId -> Answer)
      requires Valid()
      modifies store
      ensures store.Tables() == Outbox.ProcessBatch(old(store.Tables()), answers)
    {
      ghost var before := store.Tables();
      var events := Batch(store.outbox);
      BatchInRange(store.outbox);
      for i := 0 to |events|
        invariant store.Tables() == ProcessEvents(before, events[..i], answers)
      {
        ProcessEvent(events[i], answers(events[i]));
        OneEventMore(before, events, answers, i);
      }
      assert events[..|events|] == events;
    }

    lemma {:induction false} BatchInRange(o: seq<OutboxEvent>)
      ensures forall i | 0 <= i < |Batch(o)| :: Batch(o)[i] < |o|
    {
    }
  }
}
