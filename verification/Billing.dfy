/** Payment events: each is processed once. */
module BillingService {
  import Records
  import Store
  import AuditService

  const STRIPE_ACTION := "stripe.webhook_processed"

  ghost predicate MarkStep(before: Store.State, after: Store.State, eventID: string) {
    after == before.(stripeEvents := before.stripeEvents + {eventID})
  }

  function StripeEntry(eventID: string, typ: string, now: Records.Instant): Records.AuditEntry {
    Records.AuditEntry("", "", STRIPE_ACTION, "stripe_event", eventID, "{\"type\":\"" + typ + "\"}", now)
  }

  /** The first of the two writes. */
  method MarkEvent(store: Store.MemoryStore, eventID: string) returns (dup: bool)
    modifies store
    ensures dup <==> eventID in old(store.st).stripeEvents
    ensures MarkStep(old(store.st), store.st, eventID)
  {
    dup := eventID in store.st.stripeEvents;
    if !dup {
      store.st := store.st.(stripeEvents := store.st.stripeEvents + {eventID});
    }
  }

  datatype ProcessResult = Processed | DuplicateEvent

  method RecordAndProcessEvent(store: Store.MemoryStore, eventID: string, typ: string, now: Records.Instant)
          returns (r: ProcessResult)
    modifies store
    ensures r == if eventID in old(store.st).stripeEvents then DuplicateEvent else Processed
    ensures r == DuplicateEvent ==> store.st == old(store.st)
    ensures r == Processed ==>
              var entry := Records.AuditEntry("", "", "stripe.webhook_processed", "stripe_event", eventID,
                                              "{\"type\":\"" + typ + "\"}", now);
              store.st == old(store.st).(stripeEvents := old(store.st).stripeEvents + {eventID},
                                         auditLogs := old(store.st).auditLogs + [entry])
  {
    var dup := MarkEvent(store, eventID);
    if dup {
      return DuplicateEvent;
    }
    LogProcessed(store, eventID, typ, now);
    r := Processed;
  }

  /** The second write. */
  method LogProcessed(store: Store.MemoryStore, eventID: string, typ: string, now: Records.Instant)
    modifies store
    ensures AuditService.LogStep(old(store.st), store.st, StripeEntry(eventID, typ, now))
  {
    AuditService.Log(store, "", "", STRIPE_ACTION, "stripe_event", eventID, "{\"type\":\"" + typ + "\"}", now);
  }
}
