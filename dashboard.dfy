/** The logic of the dashboard (script.js) that drives the backend of
    backend/server.js: the role forms, each a fixed pair of writes; the
    patient verification lookup; and the stage lists, which bucket the
    fetched batches by stage. Form values are taken as already trimmed and
    `confirmed` is the answer given to the confirmation dialog. */
module Dashboard {
  import opened Records
  import opened Seqs
  import opened Store
  import Server

  /** The forms that move a batch on, and the "mark sold" button. */
  datatype Role = Manufacturer | Repackage | Distributor | Pharmacy | Sold

  /** What a form writes: the event it posts and the stage it then asks
      for, both under the same actor. */
  datatype Step = Step(actor: string, action: string, next: string)

  /** The stages of the workflow, in their advisory order. Nothing in the
      backend enforces this order. */
  const WorkflowStages: seq<string> :=
    ["Supplier", "Manufacturer", "Repackage", "Distributor", "Pharmacy", "Patient", "Delivered"]

  /** The role table. Every next stage is a workflow stage after
      Manufacturer: no form ever puts a batch at Supplier or Manufacturer. */
  function Workflow(role: Role): (s: Step)
    ensures s.next in WorkflowStages[2..]
    ensures s.actor != "" && s.action != ""
  {
    match role
    case Manufacturer => Step("Manufacturer", "Produced", "Repackage")
    case Repackage => Step("Repackage", "Repackaged", "Distributor")
    case Distributor => Step("Distributor", "Dispatched", "Pharmacy")
    case Pharmacy => Step("Pharmacy", "Received", "Patient")
    case Sold => Step("Pharmacy", "Sold", "Delivered")
  }

  /** No batch is at `stage`. */
  predicate NoneAt(bs: seq<Batch>, stage: string)
  {
    forall i :: 0 <= i < |bs| ==> bs[i].stage != stage
  }

  /** The Supplier form: without a batchId nothing happens; a declined
      confirmation writes nothing; otherwise it creates (or restocks) the
      batch with the notes as drug name ("New Drug" when empty) and then
      posts a "Created Shipment" event. */
  method SupplierSubmit(db: Db, batchId: string, notes: string, confirmed: bool)
    requires db.Valid() && db.eventSchema == InlineSchema
    modifies db
    ensures db.Valid()
    ensures batchId == "" || !confirmed ==> db.Snapshot() == old(db.Snapshot())
    ensures batchId != "" && confirmed && IndexOf(old(db.batches), batchId).None? ==>
      var drug := if notes == "" then "New Drug" else notes;
      var c := old(db.clock);
      && db.batches == old(db.batches) + [Batch(batchId, drug, "Supplier", "In Progress", c)]
      && db.events == old(db.events) + [
           Event(batchId, "Supplier", "Created", "New shipment created", c + 1),
           Event(batchId, "Supplier", "Created Shipment", notes, c + 2)]
      && db.clock == c + 3
    ensures batchId != "" && confirmed && IndexOf(old(db.batches), batchId).Some? ==>
      var i := IndexOf(old(db.batches), batchId).value;
      var c := old(db.clock);
      && db.batches == old(db.batches)[i := old(db.batches)[i].(stage := "Supplier", status := "Restocked")]
      && db.events == old(db.events) + [
           Event(batchId, "Supplier", "Restocked", "Existing batch restocked and ready", c),
           Event(batchId, "Supplier", "Created Shipment", notes, c + 1)]
      && db.clock == c + 2
    ensures NoneAt(old(db.batches), "Manufacturer") ==> NoneAt(db.batches, "Manufacturer")
  {
    if batchId == "" || !confirmed {
      return;
    }
    var drug := if notes == "" then "New Drug" else notes;
    var _ := Server.CreateOrRestock(db, batchId, drug);
    var _ := Server.PostEvent(db, batchId, "Supplier", "Created Shipment", notes);
  }

  /** A role form (or the "mark sold" button): a declined confirmation
      writes nothing; otherwise it posts the role's event, whether or not
      the batch exists, and then asks for the role's next stage, which
      writes a second event only for a known batch. The sold button sends
      no notes. */
  method RoleSubmit(db: Db, role: Role, batchId: string, notes: string, confirmed: bool)
    requires db.Valid() && db.eventSchema == InlineSchema
    modifies db
    ensures db.Valid()
    ensures !confirmed ==> db.Snapshot() == old(db.Snapshot())
    ensures confirmed ==>
      var s := Workflow(role);
      var c := old(db.clock);
      var posted := Event(batchId, s.actor, s.action, if role == Sold then "" else notes, c);
      if IndexOf(old(db.batches), batchId).None? then
        && db.batches == old(db.batches)
        && db.events == old(db.events) + [posted]
        && db.clock == c + 1
      else
        var i := IndexOf(old(db.batches), batchId).value;
        && db.batches == old(db.batches)[i := old(db.batches)[i].(stage := s.next)]
        && db.events == old(db.events) + [posted, Event(batchId, s.actor, "Stage Updated", "Moved to " + s.next, c + 1)]
        && db.clock == c + 2
    ensures NoneAt(old(db.batches), "Manufacturer") ==> NoneAt(db.batches, "Manufacturer")
  {
    if !confirmed {
      return;
    }
    var s := Workflow(role);
    var _ := Server.PostEvent(db, batchId, s.actor, s.action, if role == Sold then "" else notes);
    var _ := Server.UpdateStage(db, batchId, s.next, s.actor);
  }

  /** What the patient panel shows. */
  datatype Display = NoRecords | History(events: seq<Event>)

  /** The patient form: "No records" exactly when nothing was recorded for
      the batch, otherwise its history in the order it was recorded. */
  method PatientVerify(db: Db, batchId: string) returns (d: Display)
    requires db.Valid()
    ensures d.NoRecords? <==> forall i :: 0 <= i < |db.events| ==> db.events[i].batchId != batchId
    ensures d.History? ==> d.events == Filter(db.events, ForBatch(batchId)) && d.events != []
  {
    var data := Server.Verify(db, batchId);
    if |data| == 0 {
      assert data == [];
      d := NoRecords;
    } else {
      assert data[0] in db.events;
      d := History(data);
    }
  }

  /** The stages that have a list on the dashboard; Patient and Delivered
      have none. */
  const ListedStages: seq<string> := ["Supplier", "Manufacturer", "Repackage", "Distributor", "Pharmacy"]

  /** The batch filter `b.stage === stage`. */
  function AtStage(stage: string): (p: Batch -> bool)
    ensures forall b :: p(b) <==> b.stage == stage
  {
    (b: Batch) => b.stage == stage
  }

  /** Batches whose stage has no list. */
  function Unlisted(): (p: Batch -> bool)
    ensures forall b :: p(b) <==> b.stage !in ListedStages
  {
    (b: Batch) => b.stage !in ListedStages
  }

  /** `refreshStageLists`: for each listed stage, the fetched batches whose
      stage is exactly that name. */
  function StageLists(bs: seq<Batch>): (r: seq<seq<Batch>>)
    ensures |r| == |ListedStages|
    ensures forall k, i :: 0 <= k < |r| && 0 <= i < |r[k]| ==> r[k][i].stage == ListedStages[k] && r[k][i] in bs
    ensures forall k, i :: 0 <= k < |r| && 0 <= i < |bs| && bs[i].stage == ListedStages[k] ==> bs[i] in r[k]
  {
    [ Filter(bs, AtStage(ListedStages[0])), Filter(bs, AtStage(ListedStages[1])),
      Filter(bs, AtStage(ListedStages[2])), Filter(bs, AtStage(ListedStages[3])),
      Filter(bs, AtStage(ListedStages[4])) ]
  }

  /** Every list keeps the relative order of the fetched batches. */
  lemma StageListsKeepOrder(bs: seq<Batch>)
    ensures forall k :: 0 <= k < |ListedStages| ==> IsSubseq(StageLists(bs)[k], bs)
  {
    forall k | 0 <= k < |ListedStages| ensures IsSubseq(StageLists(bs)[k], bs) {
      FilterIsSubseq(bs, AtStage(ListedStages[k]));
    }
  }

  /** The lists and the batches without a list partition the fetched
      batches. List k of StageLists is the filter by ListedStages[k], so the
      five list sizes plus the number of batches without a list add up to
      the number of batches: each batch lands in at most one list, and in
      none exactly when its stage has no list (Patient, Delivered, or any
      other value a stage update wrote). */
  lemma {:induction false} StageListsPartition(bs: seq<Batch>)
    ensures var r := StageLists(bs);
      |r[0]| + |r[1]| + |r[2]| + |r[3]| + |r[4]| + |Filter(bs, Unlisted())| == |bs|
  {
    if bs != [] {
      StageListsPartition(bs[1..]);
      FilterLength(bs, AtStage(ListedStages[0]));
      FilterLength(bs, AtStage(ListedStages[1]));
      FilterLength(bs, AtStage(ListedStages[2]));
      FilterLength(bs, AtStage(ListedStages[3]));
      FilterLength(bs, AtStage(ListedStages[4]));
      FilterLength(bs, Unlisted());
    }
  }

  /** As long as only the dashboard writes, no batch reaches Manufacturer
      (see Workflow), so the Manufacturer list stays empty. */
  lemma ManufacturerListEmpty(bs: seq<Batch>)
    requires NoneAt(bs, "Manufacturer")
    ensures StageLists(bs)[1] == []
  {
    assert StageLists(bs)[1] == Filter(bs, AtStage("Manufacturer"));
    FilterNone(bs, AtStage("Manufacturer"));
  }
}
