# Pharmaceutical batch registry and event ledger

This project models the core of a pharmaceutical supply-chain tracker. A
**batch registry** holds one current record per batch: id, drug name,
stage, status and creation time. An append-only **event ledger** records
which actor did what to which batch, and when. The model covers:

- the backend request handlers that change and read these two stores, in
  both of the repository's versions:
  - `backend/server.js` restocks a batch in place when it is created twice;
  - `backend/routes/*.js` with the schemas of `backend/models/*.js` rejects
    the second create;
- the dashboard (`script.js`): its role forms, each a fixed pair of writes;
  its patient verification lookup; and its per-stage batch lists.

## How the system is represented

- `Store.Db` is the document store. It is a class with the Batch
  collection and the Event collection as `seq` fields, kept in insertion
  order, and a `clock` field that stands in for `Date.now`. Every new
  document takes the clock's value, and the clock then moves on by one.
  So the clock strictly increases, and no two documents share a time.
  `Db.Valid()` is the invariant every handler keeps:
  - batch ids are present and unique;
  - both collections strictly increase in time;
  - every stored time is below the clock.
- `Store.Table` views the Batch collection as the map
  `batchId -> Batch`. `TableOneRecordPerBatch` proves that this map holds
  exactly one record per stored batch.
- Each handler is one sequential method. Its `ensures` gives the new
  contents of both collections in terms of the old ones, and its
  `Result`. `Ok` is success. `Err` carries `InvalidInput`,
  `DuplicateBatch` or `NotFound`.
- `Db.eventSchema` names the Event schema the deployment registered:
  - `InlineSchema`, from `backend/server.js:38-45`, makes every path
    optional;
  - `ModelSchema`, from `backend/models/Event.js`, requires `batchId`,
    `actor` and `action`.

  The Batch schema is the same in both versions.
- A request field that is missing is modelled as the empty string. The
  handlers test fields with `!x`, and a required String path rejects
  both `""` and a missing value.
- A `sort` on a timestamp field is a stable insertion sort on an integer
  key (`Sorting.SortBy`). A descending sort uses the negated key. The
  clock never gives two documents the same time, so `SortedUnique`
  shows that any correct sort gives the same result.
- The GET views are also proved equal to their meaning in insertion
  order:
  - the ledger, newest first, is the ledger read back to front;
  - a batch's verification history is its events in the order they were
    appended.

## Behaviour of the code that the model keeps

- The create of `backend/routes/batchRoutes.js` does not check
  `drugName`, unlike `backend/server.js:58`. Only the schema's required
  `batchId` applies.
- The inline Event schema of `backend/server.js:38-45` requires no path,
  so `POST /api/events` there stores any event, even one with an empty
  `actor` or `action`. The schema of `backend/models/Event.js` requires
  `batchId`, `actor` and `action`.
- No dashboard form ever sets the stage Manufacturer. The Manufacturer
  form (`script.js:123-124`) posts "Produced" and moves the batch on to
  Repackage. So the Manufacturer list stays empty
  (`Dashboard.Workflow`, `Dashboard.ManufacturerListEmpty`).
- The stage-update event's action is "Stage Updated" in
  `backend/server.js` and "Stage Update" in `backend/routes/batchRoutes.js`.
- The batch list of `backend/routes/batchRoutes.js` is not sorted. It
  comes back in natural order, which is oldest first.
- The stage update of `backend/routes/batchRoutes.js` writes the stage
  before it creates the event. When no `actor` is given, the event fails
  validation, so the answer is an error, yet the stage change stays
  (`Routes.UpdateStage`).

## Model

| member | source | states |
|---|---|---|
| Records.NewBatch | backend/models/Batch.js:3-9 | a batch is built exactly when batchId is present; drugName is optional; stage defaults to "Supplier" and status to "In Progress"; createdAt is the creation time |
| Records.NewEvent | backend/models/Event.js:3-9 | under the model schema an event is built exactly when batchId, actor and action are present, and under the inline schema always; notes is optional; the timestamp is the creation time |
| Store.IndexOf | backend/server.js:61 | `findOne({batchId})` finds a position holding that id, or reports none only when no stored batch has that id |
| Store.TableKeys | backend/models/Batch.js:4 | the keys of the batchId table are exactly the ids `findOne` finds |
| Store.TableOneRecordPerBatch | backend/models/Batch.js:4 | with the unique index, the table has exactly one entry per stored batch, and it is that batch |
| Store.NewestBatchesFirst | backend/server.js:122 | the batch list is a permutation of the collection ordered by createdAt descending |
| Store.NewestBatchesFirstIsReverse | backend/server.js:122 | under the clock, createdAt-descending order is the collection read back to front |
| Store.LedgerView | backend/routes/eventRoutes.js:17 | the global ledger is a permutation of all events ordered by timestamp descending |
| Store.LedgerIsReverseInsertionOrder | backend/routes/eventRoutes.js:17 | under the clock, the global ledger is the ledger read back to front |
| Store.VerifyView | backend/routes/eventRoutes.js:23 | verify returns only events with the requested batchId, returns every such event of the ledger, and orders them by timestamp ascending; as a multiset it is exactly the filter's result |
| Store.VerifyIsInsertionOrder | backend/routes/eventRoutes.js:23 | under the clock, verify returns the batch's events in the order they were appended, strictly ascending in time |
| Store.VerifyAfterAppend | backend/routes/eventRoutes.js:8 | appending an event adds it to the end of its own batch's history and leaves every other batch's history unchanged |
| Sorting.SortBy | backend/server.js:135 | a sort returns a permutation of its input ordered by the key |
| Sorting.SortedUnique | backend/server.js:140 | two key-ordered permutations of the same documents are equal when one has no ties, so the store's tie-breaking never matters under the clock |
| Seqs.Filter | backend/server.js:140 | a filter keeps exactly the documents that match, and nothing else |
| Seqs.FilterSubMultiset | backend/server.js:140 | a filter never returns a document more often than it is stored |
| Seqs.FilterCounts | backend/server.js:140 | a filter returns every matching document as often as it is stored |
| Store.Db.CreateBatch | backend/models/Batch.js:4-8 | `Batch.create` fails with InvalidInput without a batchId and with DuplicateBatch on a known one, and otherwise appends the new batch stamped with the clock; the ledger does not change |
| Store.Db.SaveStageAndStatus | backend/server.js:65-67 | `save()` after assigning stage and status changes only those two fields of that one batch |
| Store.Db.FindOneAndUpdateStage | backend/server.js:102 | `findOneAndUpdate` changes only the stage of the batch with that id, accepts any stage value, and returns the updated batch, or returns none and changes nothing |
| Store.Db.CreateEvent | backend/models/Event.js:3-8 | `Event.create` appends exactly the validated event at the end of the ledger, or changes nothing when validation fails; batches never change |
| Store.Db.DeleteManyBatches | backend/server.js:163 | `deleteMany` empties the Batch collection and leaves the ledger unchanged |
| Store.Db.DeleteManyEvents | backend/server.js:164 | `deleteMany` empties the ledger and leaves the batches unchanged |
| Server.CreateOrRestock | backend/server.js:55-92 | without batchId or drugName the request fails and nothing changes. For a known id it adds no record: it sets stage "Supplier" and status "Restocked", keeps drugName and createdAt, and appends one Supplier "Restocked" event. For a new id it appends one batch at Supplier / In Progress and then one Supplier "Created" event |
| Server.UpdateStage | backend/server.js:97-116 | an unknown batch gives NotFound and nothing changes; for a known batch only its stage changes, to any given value, and one "Stage Updated" event with notes "Moved to <stage>" is appended |
| Server.PostEvent | backend/server.js:129-132 | every posted event is appended to the end of the ledger, whether or not its batch exists; batches do not change |
| Server.ListBatches | backend/server.js:121-124 | the batch list is every batch, strictly newest createdAt first, which is the collection read back to front |
| Server.Ledger | backend/server.js:134-137 | the global ledger is every event, strictly newest first, which is the ledger read back to front |
| Server.Verify | backend/server.js:139-142 | verify returns exactly the requested batch's events, strictly ascending in time, in the order they were appended |
| Server.ClearAll | backend/server.js:162-166 | clear always succeeds, empties both stores and keeps the clock; clearing empty stores changes nothing, so clearing twice is the same as once |
| Routes.Create | backend/routes/batchRoutes.js:7-19 | a known batchId gives DuplicateBatch; a missing batchId fails validation; in both cases nothing changes. Otherwise it succeeds whatever the drugName, inserts the schema defaults and appends a Supplier "Created" event with notes "Shipment started" |
| Routes.UpdateStage | backend/routes/batchRoutes.js:22-35 | an unknown batch gives NotFound and nothing changes. A known batch gets the new stage. With an actor, one "Stage Update" event with notes "Moved to <stage>" is appended. Without one, the request fails and no event is appended, yet the stage change stays |
| Routes.List | backend/routes/batchRoutes.js:38-41 | the list is the collection in its natural order, unsorted, which is oldest first |
| Routes.Append | backend/routes/eventRoutes.js:6-13 | an event with batchId, actor and action is appended as the last ledger entry without checking that the batch exists; otherwise the request fails and nothing changes |
| Dashboard.Workflow | script.js:123-185 | every next stage in the role table is a workflow stage after Manufacturer, and every actor and action is non-empty |
| Dashboard.SupplierSubmit | script.js:97-112 | without a batchId, or when the user declines, nothing is written. Otherwise it creates or restocks the batch with the notes as drug name ("New Drug" when the notes are empty), then appends a "Created Shipment" event; the clock moves on by 3 for a new batch and by 2 for a restock. It never puts a batch at Manufacturer |
| Dashboard.RoleSubmit | script.js:115-189 | when the user declines, nothing is written. Otherwise it first appends the role's event, even for an unknown batch. For a known batch it then sets the role's fixed next stage and appends a "Stage Updated" event; the clock moves on by one per event written. It never puts a batch at Manufacturer |
| Dashboard.PatientVerify | script.js:192-209 | "No records" is shown exactly when the ledger holds no event for the batch; otherwise the batch's history is shown in recorded order |
| Dashboard.StageLists | script.js:249-264 | there is one list per listed stage; a list holds exactly the fetched batches whose stage equals its name |
| Dashboard.StageListsKeepOrder | script.js:259 | each list keeps the relative order of the fetched batches |
| Dashboard.StageListsPartition | script.js:251-259 | the sizes of the five stage lists plus the number of batches without a list add up to the number of batches, so each batch is in at most one list, and in none when its stage (such as Patient or Delivered) has no list |
| Dashboard.ManufacturerListEmpty | script.js:251-259 | when no batch is at Manufacturer, which the dashboard's forms preserve, the Manufacturer list is empty |

## Left out

- Database connection and query mechanics, Express routing, CORS and
  response serialisation. Each response is a `Result` value.
- Generic server errors from a failed or unreachable store, and a crash
  between the two writes of one handler. Handlers run one at a time and
  are never interleaved.
- The IoT feed proxy (`backend/routes/iotRoutes.js`, and
  `backend/server.js:147-157`) is left out: it is a network call to a
  third-party service.
- The spreadsheet export (`backend/server.js:171-233`) is left out: it is
  a rendering library.
- The default route and the server start-up are left out.
- Dashboard rendering is left out: DOM, chart, toast, confirmation
  dialog, tabs and the polling timers. The confirmation answer is a
  parameter.
- The IoT widget's floating-point parsing and formatting, and its
  overheat test, are left out.
- Whitespace trimming of form inputs is left out: the dashboard's inputs
  are taken as already trimmed.
- Fields a client adds to a POST body beyond the modelled ones are left
  out, for example its own `timestamp` or `createdAt`. The model always
  stamps new documents with the clock. A client-chosen timestamp could
  break "ascending time is insertion order".
- Equal `Date.now` values are left out: the real clock has millisecond
  resolution, but the model's clock strictly increases.
- JSON values that are not strings, and a stage update whose body has no
  `stage`, are left out.
- An empty `:batchId` path parameter never reaches the stage-update
  handler. The model treats it as an unknown batch, which gives the same
  404 answer.
- The DuplicateBatch answer of `Store.Db.CreateBatch` stands for the
  unique index's error. The handlers' `findOne` check runs first, so sequential
  runs never reach it.
- Dashboard.RoleSubmit: takes the batchId as a plain, non-empty URL path
  segment with no '/', '?', '#' or '%'. The form puts the id into the
  stage-update path without encoding it (`script.js:223`). An id such as
  "a/b" then matches no route, so the stage is not changed and no "Stage
  Updated" event is written, while the model changes both.
- Dashboard.PatientVerify: takes the batchId as a plain, non-empty URL
  path segment with no '/', '?', '#' or '%'. The form puts the id into
  the verify path without encoding it (`script.js:195`). Then "B1#x" or
  "B%31" reaches the backend as "B1" and shows B1's history, and an empty
  id matches no route and shows nothing, while the model looks up the id
  as typed.
