/** The request handlers of backend/server.js, each one sequential method
    over the store. This deployment registers its own inline schemas, whose
    Event paths are all optional, and treats a second create for a known
    batchId as a restock in place. */
module Server {
  import opened Records
  import opened Seqs
  import opened Sorting
  import opened Store

  /** The two successful answers of `POST /api/batches`. */
  datatype Created = NewShipment(batch: Batch) | Restock(batch: Batch)

  /** `POST /api/batches`: rejects a request without batchId or drugName;
      restocks a known batch (stage back to Supplier, status Restocked,
      drugName and createdAt kept); otherwise inserts a new batch. Either
      way one Supplier event is appended after the batch write. */
  method CreateOrRestock(db: Db, batchId: string, drugName: string) returns (r: Result<Created>)
    requires db.Valid() && db.eventSchema == InlineSchema
    modifies db
    ensures db.Valid()
    ensures r.Ok? <==> batchId != "" && drugName != ""
    ensures batchId == "" || drugName == "" ==> r == Err(InvalidInput) && db.Snapshot() == old(db.Snapshot())
    ensures batchId != "" && drugName != "" && IndexOf(old(db.batches), batchId).Some? ==>
      var i := IndexOf(old(db.batches), batchId).value;
      var b := old(db.batches)[i].(stage := "Supplier", status := "Restocked");
      && r == Ok(Restock(b))
      && db.batches == old(db.batches)[i := b]
      && db.events == old(db.events) + [Event(batchId, "Supplier", "Restocked", "Existing batch restocked and ready", old(db.clock))]
      && db.clock == old(db.clock) + 1
    ensures batchId != "" && drugName != "" && IndexOf(old(db.batches), batchId).None? ==>
      var b := Batch(batchId, drugName, "Supplier", "In Progress", old(db.clock));
      && r == Ok(NewShipment(b))
      && db.batches == old(db.batches) + [b]
      && db.events == old(db.events) + [Event(batchId, "Supplier", "Created", "New shipment created", old(db.clock) + 1)]
      && db.clock == old(db.clock) + 2
  {
    if batchId == "" || drugName == "" {
      return Err(InvalidInput);
    }
    var found := IndexOf(db.batches, batchId);
    if found.Some? {
      var i := found.value;
      db.SaveStageAndStatus(i, "Supplier", "Restocked");
      var _ := db.CreateEvent(batchId, "Supplier", "Restocked", "Existing batch restocked and ready");
      return Ok(Restock(db.batches[i]));
    }
    var b := db.CreateBatch(batchId, drugName, Some("Supplier"));
    var _ := db.CreateEvent(batchId, "Supplier", "Created", "New shipment created");
    return Ok(NewShipment(b.value));
  }

  /** `PUT /api/batches/:batchId/stage`: an unknown batch is NotFound and
      nothing is written; a known batch takes any given stage, nothing
      else about it changes, and one "Stage Updated" event is appended. */
  method UpdateStage(db: Db, batchId: string, stage: string, actor: string) returns (r: Result<Batch>)
    requires db.Valid() && db.eventSchema == InlineSchema
    modifies db
    ensures db.Valid()
    ensures IndexOf(old(db.batches), batchId).None? ==> r == Err(NotFound) && db.Snapshot() == old(db.Snapshot())
    ensures IndexOf(old(db.batches), batchId).Some? ==>
      var i := IndexOf(old(db.batches), batchId).value;
      && db.batches == old(db.batches)[i := old(db.batches)[i].(stage := stage)]
      && r == Ok(db.batches[i])
      && db.events == old(db.events) + [Event(batchId, actor, "Stage Updated", "Moved to " + stage, old(db.clock))]
      && db.clock == old(db.clock) + 1
  {
    var b := db.FindOneAndUpdateStage(batchId, stage);
    if b.None? {
      return Err(NotFound);
    }
    var _ := db.CreateEvent(batchId, actor, "Stage Updated", "Moved to " + stage);
    return Ok(b.value);
  }

  /** `POST /api/events`: the inline schema requires nothing, so the event
      is always appended, whether or not its batch exists. */
  method PostEvent(db: Db, batchId: string, actor: string, action: string, notes: string) returns (e: Event)
    requires db.Valid() && db.eventSchema == InlineSchema
    modifies db
    ensures db.Valid()
    ensures e == Event(batchId, actor, action, notes, old(db.clock))
    ensures db.events == old(db.events) + [e]
    ensures db.batches == old(db.batches) && db.clock == old(db.clock) + 1
  {
    var r := db.CreateEvent(batchId, actor, action, notes);
    e := r.value;
  }

  /** `GET /api/batches`: every batch, strictly newest first, which is the
      collection read back to front. */
  method ListBatches(db: Db) returns (r: seq<Batch>)
    requires db.Valid()
    ensures multiset(r) == multiset(db.batches)
    ensures forall i, j :: 0 <= i < j < |r| ==> r[i].createdAt > r[j].createdAt
    ensures r == Reverse(db.batches)
  {
    r := NewestBatchesFirst(db.batches);
    NewestBatchesFirstIsReverse(db.batches);
  }

  /** `GET /api/events`: the whole ledger, strictly newest first, which is
      the ledger read back to front. */
  method Ledger(db: Db) returns (r: seq<Event>)
    requires db.Valid()
    ensures multiset(r) == multiset(db.events)
    ensures forall i, j :: 0 <= i < j < |r| ==> r[i].timestamp > r[j].timestamp
    ensures r == Reverse(db.events)
  {
    r := LedgerView(db.events);
    LedgerIsReverseInsertionOrder(db.events);
  }

  /** `GET /api/events/verify/:batchId`: exactly the events recorded for
      the batch, strictly oldest first, in the order they were appended;
      empty for a batchId nothing was recorded for. */
  method Verify(db: Db, batchId: string) returns (r: seq<Event>)
    requires db.Valid()
    ensures forall i :: 0 <= i < |r| ==> r[i].batchId == batchId && r[i] in db.events
    ensures forall i :: 0 <= i < |db.events| && db.events[i].batchId == batchId ==> db.events[i] in r
    ensures forall i, j :: 0 <= i < j < |r| ==> r[i].timestamp < r[j].timestamp
    ensures r == Filter(db.events, ForBatch(batchId))
  {
    r := VerifyView(db.events, batchId);
    VerifyIsInsertionOrder(db.events, batchId);
  }

  /** `DELETE /api/clear`: empties both collections and always succeeds;
      clearing an empty store changes nothing. */
  method ClearAll(db: Db)
    requires db.Valid()
    modifies db
    ensures db.Valid()
    ensures db.batches == [] && db.events == [] && db.clock == old(db.clock)
    ensures old(db.batches) == [] && old(db.events) == [] ==> db.Snapshot() == old(db.Snapshot())
  {
    db.DeleteManyBatches();
    db.DeleteManyEvents();
  }
}
