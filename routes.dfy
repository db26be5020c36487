/** The router handlers of backend/routes/batchRoutes.js and
    backend/routes/eventRoutes.js, over a store that registered the schemas
    of backend/models/. Unlike backend/server.js, a second create for a
    known batchId is rejected, and an event needs batchId, actor and
    action. The two GET views of eventRoutes.js are Store.LedgerView and
    Store.VerifyView. */
module Routes {
  import opened Records
  import opened Sorting
  import opened Store

  /** batchRoutes `POST /`: a known batchId is rejected with "Batch already
      exists" and nothing is written. There is no drugName check; the only
      other failure is the schema's required batchId. A new batch takes the
      schema defaults and one Supplier "Created" event is appended. */
  method Create(db: Db, batchId: string, drugName: string) returns (r: Result<Batch>)
    requires db.Valid() && db.eventSchema == ModelSchema
    modifies db
    ensures db.Valid()
    ensures r.Ok? <==> batchId != "" && IndexOf(old(db.batches), batchId).None?
    ensures IndexOf(old(db.batches), batchId).Some? ==> r == Err(DuplicateBatch)
    ensures batchId == "" ==> r == Err(InvalidInput)
    ensures r.Err? ==> db.Snapshot() == old(db.Snapshot())
    ensures r.Ok? ==>
      && r.value == Batch(batchId, drugName, DefaultStage, DefaultStatus, old(db.clock))
      && db.batches == old(db.batches) + [r.value]
      && db.events == old(db.events) + [Event(batchId, "Supplier", "Created", "Shipment started", old(db.clock) + 1)]
      && db.clock == old(db.clock) + 2
  {
    if IndexOf(db.batches, batchId).Some? {
      return Err(DuplicateBatch);
    }
    r := db.CreateBatch(batchId, drugName, None);
    if r.Err? {
      return;
    }
    var _ := db.CreateEvent(batchId, "Supplier", "Created", "Shipment started");
  }

  /** batchRoutes `PUT /:batchId/stage`: an unknown batch is NotFound and
      nothing is written. For a known batch the stage is written first; the
      "Stage Update" event that follows fails validation when no actor is
      given, and then the answer is an error although the stage change
      stays. */
  method UpdateStage(db: Db, batchId: string, stage: string, actor: string) returns (r: Result<Batch>)
    requires db.Valid() && db.eventSchema == ModelSchema
    modifies db
    ensures db.Valid()
    ensures IndexOf(old(db.batches), batchId).None? ==> r == Err(NotFound) && db.Snapshot() == old(db.Snapshot())
    ensures IndexOf(old(db.batches), batchId).Some? ==>
      var i := IndexOf(old(db.batches), batchId).value;
      db.batches == old(db.batches)[i := old(db.batches)[i].(stage := stage)]
    ensures IndexOf(old(db.batches), batchId).Some? && actor == "" ==>
      r == Err(InvalidInput) && db.events == old(db.events) && db.clock == old(db.clock)
    ensures IndexOf(old(db.batches), batchId).Some? && actor != "" ==>
      var i := IndexOf(old(db.batches), batchId).value;
      && r == Ok(db.batches[i])
      && db.events == old(db.events) + [Event(batchId, actor, "Stage Update", "Moved to " + stage, old(db.clock))]
      && db.clock == old(db.clock) + 1
  {
    var b := db.FindOneAndUpdateStage(batchId, stage);
    if b.None? {
      return Err(NotFound);
    }
    var e := db.CreateEvent(batchId, actor, "Stage Update", "Moved to " + stage);
    if e.Err? {
      return Err(e.error);
    }
    return Ok(b.value);
  }

  /** batchRoutes `GET /`: every batch, unsorted, in the collection's
      natural order, which is oldest first. */
  method List(db: Db) returns (r: seq<Batch>)
    requires db.Valid()
    ensures r == db.batches
    ensures forall i, j :: 0 <= i < j < |r| ==> r[i].createdAt < r[j].createdAt
  {
    r := db.batches;
    assert StrictlySortedBy(r, CreatedAt);
  }

  /** eventRoutes `POST /`: appends exactly one event when batchId, actor
      and action are all given, whether or not the batch exists; otherwise
      the ledger is left as it was. */
  method Append(db: Db, batchId: string, actor: string, action: string, notes: string) returns (r: Result<Event>)
    requires db.Valid() && db.eventSchema == ModelSchema
    modifies db
    ensures db.Valid()
    ensures r.Ok? <==> batchId != "" && actor != "" && action != ""
    ensures r.Err? ==> r.error == InvalidInput && db.Snapshot() == old(db.Snapshot())
    ensures r.Ok? ==>
      && r.value == Event(batchId, actor, action, notes, old(db.clock))
      && db.events == old(db.events) + [r.value]
      && db.batches == old(db.batches)
      && db.clock == old(db.clock) + 1
  {
    r := db.CreateEvent(batchId, actor, action, notes);
  }
}
