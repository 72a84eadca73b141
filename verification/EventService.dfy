/** `ControlPlaneEventService`: events that callers submit, checked against the table of roles. */
module EventService {
  import opened Wrappers
  import opened Events
  import opened ControlPlane
  import opened ControlPlaneRuns
  import opened ServerStore

  class ControlPlaneEventService {
    const store: Store

    constructor (store: Store)
      ensures this.store == store
    {
      this.store := store;
    }

    method Ingest(e: Event) returns (outcome: Outcome)
      requires store.Valid()
      modifies store
      ensures store.Valid()
      ensures (store.Snapshot(), outcome) == IngestStep(store.env, old(store.Snapshot()), e)
    {
      hide Inv;
      if Permitted(e) {
        var raised := store.AppendControlPlaneEvent(e);
        return if raised then Raised(Duplicate) else Done(201);
      }
      store.AppendGenerated(SubmissionDenial(store.env, store.Snapshot(), e));
      return Done(403);
    }
  }
}
