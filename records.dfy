/** The two document kinds of the backend and the schema rules that guard
    their creation: Batch (backend/models/Batch.js, repeated inline in
    backend/server.js) and Event (backend/models/Event.js, and a looser
    inline copy in backend/server.js that requires nothing).

    A request field that is missing and one that is the empty string are
    the same value "" here: the handlers test fields with `!x`, and a
    required String path rejects both. */
module Records {

  /** Milliseconds of the logical clock that stands in for `Date.now`. */
  type Time = nat

  datatype Batch = Batch(
    batchId: string,
    drugName: string,
    stage: string,
    status: string,
    createdAt: Time)

  datatype Event = Event(
    batchId: string,
    actor: string,
    action: string,
    notes: string,
    timestamp: Time)

  datatype Option<T> = None | Some(value: T)

  /** The client errors a handler answers with. The generic 500 answers of
      the source's catch blocks are reported as InvalidInput when they come
      from a schema validation failure, the only cause modelled here. */
  datatype Error = InvalidInput | DuplicateBatch | NotFound

  datatype Result<T> = Ok(value: T) | Err(error: Error)

  /** Which Event schema a deployment registered: the inline one of
      backend/server.js, whose paths are all optional, or the one of
      backend/models/Event.js, which requires batchId, actor and action. */
  datatype EventSchema = InlineSchema | ModelSchema

  const DefaultStage: string := "Supplier"
  const DefaultStatus: string := "In Progress"

  /** Builds a Batch document as `Batch.create` does: batchId is required,
      drugName is optional, stage and status take their defaults when not
      given, createdAt is the creation time. Uniqueness of batchId is a
      property of the collection, checked by Store.Db.CreateBatch. */
  function NewBatch(batchId: string, drugName: string, stage: Option<string>, now: Time): (r: Result<Batch>)
    ensures r.Ok? <==> batchId != ""
    ensures r.Err? ==> r.error == InvalidInput
    ensures r.Ok? ==> r.value.batchId == batchId && r.value.drugName == drugName && r.value.createdAt == now
    ensures r.Ok? ==> r.value.status == DefaultStatus
    ensures r.Ok? && stage.None? ==> r.value.stage == DefaultStage
    ensures r.Ok? && stage.Some? ==> r.value.stage == stage.value
  {
    if batchId == "" then Err(InvalidInput)
    else
      var s := match stage case Some(given) => given case None => DefaultStage;
      Ok(Batch(batchId, drugName, s, DefaultStatus, now))
  }

  /** Builds an Event document as `Event.create` does under `schema`:
      notes is always optional, the timestamp is the creation time. */
  function NewEvent(schema: EventSchema, batchId: string, actor: string, action: string, notes: string, now: Time): (r: Result<Event>)
    ensures r.Ok? <==> (schema == ModelSchema ==> batchId != "" && actor != "" && action != "")
    ensures r.Err? ==> r.error == InvalidInput
    ensures r.Ok? ==> r.value == Event(batchId, actor, action, notes, now)
  {
    if schema == ModelSchema && (batchId == "" || actor == "" || action == "") then Err(InvalidInput)
    else Ok(Event(batchId, actor, action, notes, now))
  }

  /** Sort keys: `createdAt` and `timestamp`, ascending (`1`) and
      descending (`-1`). */
  function CreatedAt(b: Batch): int { b.createdAt }
  function NewestCreatedFirst(b: Batch): int { -(b.createdAt as int) }
  function Stamp(e: Event): int { e.timestamp }
  function NewestStampFirst(e: Event): int { -(e.timestamp as int) }
}
