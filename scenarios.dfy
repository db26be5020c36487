/** Clients of the backend of backend/server.js, driving it through the
    handlers' contracts alone. Each scenario starts from an empty store
    whose clock reads 1000 and creates batch B100 of Aspirin. */
module Scenarios {
  import opened Records
  import opened Seqs
  import opened Store
  import Server

  /** The new batch is listed alone, at Supplier / In Progress. */
  method CreateThenList()
  {
    var db := new Db(InlineSchema, 1000);
    var created := Server.CreateOrRestock(db, "B100", "Aspirin");
    var b100 := Batch("B100", "Aspirin", "Supplier", "In Progress", 1000);
    assert created == Ok(Server.NewShipment(b100));
    var listed := Server.ListBatches(db);
    assert listed == [b100];
  }

  /** Moving the batch to Distributor changes its stage only, and its
      verification history is its two events in the order they were
      written. */
  method MoveThenVerify()
  {
    var db := new Db(InlineSchema, 1000);
    var _ := Server.CreateOrRestock(db, "B100", "Aspirin");
    var b100 := Batch("B100", "Aspirin", "Supplier", "In Progress", 1000);
    assert db.batches == [b100] && |db.events| == 1;
    assert IndexOf(db.batches, "B100") == Some(0);
    var moved := Server.UpdateStage(db, "B100", "Distributor", "Repackage");
    assert moved == Ok(b100.(stage := "Distributor"));
    assert |db.events| == 2;
    assert db.events[0].batchId == "B100" && db.events[0].action == "Created";
    assert db.events[1].batchId == "B100" && db.events[1].action == "Stage Updated";
    var history := Server.Verify(db, "B100");
    FilterAll(db.events, ForBatch("B100"));
    assert history == db.events;
    assert history[0].action == "Created" && history[1].action == "Stage Updated";
  }

  /** Moving a batch that was never created is NotFound and writes nothing;
      after a clear the ledger is empty. */
  method UnknownThenClear()
  {
    var db := new Db(InlineSchema, 1000);
    var _ := Server.CreateOrRestock(db, "B100", "Aspirin");
    assert |db.batches| == 1 && db.batches[0].batchId == "B100" && |db.events| == 1;
    assert IndexOf(db.batches, "B999") == None;
    var missing := Server.UpdateStage(db, "B999", "Pharmacy", "Distributor");
    assert missing == Err(NotFound) && |db.events| == 1;
    Server.ClearAll(db);
    var ledger := Server.Ledger(db);
    assert ledger == [];
  }
}
