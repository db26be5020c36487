/** The document store the handlers work against: the Batch collection,
    the Event collection and the clock that stamps new documents. The
    collections are kept in natural order (the order documents were
    inserted), which is what an unsorted `find()` returns. The queries the
    handlers run (`find().sort(...)`, `find({batchId}).sort(...)`) are pure
    functions of the collections. */
module Store {
  import opened Records
  import opened Seqs
  import opened Sorting

  /** The unique index on batchId. */
  predicate UniqueIds(bs: seq<Batch>)
  {
    forall i, j :: 0 <= i < j < |bs| ==> bs[i].batchId != bs[j].batchId
  }

  /** What every reachable state satisfies: batch ids are present and
      unique, and the clock has stamped documents in insertion order, so
      both collections are strictly increasing in time and every stamp is
      below the clock's next value. */
  predicate WellFormed(bs: seq<Batch>, es: seq<Event>, clock: Time)
  {
    && UniqueIds(bs)
    && (forall i :: 0 <= i < |bs| ==> bs[i].batchId != "")
    && StrictlySortedBy(bs, CreatedAt)
    && StrictlySortedBy(es, Stamp)
    && (forall i :: 0 <= i < |bs| ==> bs[i].createdAt < clock)
    && (forall i :: 0 <= i < |es| ==> es[i].timestamp < clock)
  }

  /** Changing fields other than batchId and createdAt keeps the state
      well formed. */
  lemma SameKeysKeepWellFormed(bs: seq<Batch>, bs': seq<Batch>, es: seq<Event>, clock: Time)
    requires WellFormed(bs, es, clock)
    requires |bs'| == |bs|
    requires forall k :: 0 <= k < |bs| ==> bs'[k].batchId == bs[k].batchId && bs'[k].createdAt == bs[k].createdAt
    ensures WellFormed(bs', es, clock)
  {
    assert StrictlySortedBy(bs', CreatedAt) by {
      forall i, j | 0 <= i < j < |bs'| ensures CreatedAt(bs'[i]) < CreatedAt(bs'[j]) {
        assert CreatedAt(bs[i]) < CreatedAt(bs[j]);
      }
    }
  }

  /** `Batch.findOne({batchId})`: the position of the batch with that id. */
  function IndexOf(bs: seq<Batch>, id: string): (r: Option<nat>)
    ensures r.Some? ==> r.value < |bs| && bs[r.value].batchId == id
    ensures r.None? <==> forall i :: 0 <= i < |bs| ==> bs[i].batchId != id
  {
    if bs == [] then None
    else if bs[0].batchId == id then Some(0)
    else match IndexOf(bs[1..], id)
      case None => None
      case Some(k) => Some(k + 1)
  }

  /** The registry as a table from batchId to its current record. */
  function Table(bs: seq<Batch>): map<string, Batch>
  {
    if bs == [] then map[]
    else Table(bs[..|bs| - 1])[bs[|bs| - 1].batchId := bs[|bs| - 1]]
  }

  /** The table's keys are exactly the ids `findOne` finds. */
  lemma {:induction false} TableKeys(bs: seq<Batch>)
    ensures forall id :: id in Table(bs) <==> IndexOf(bs, id).Some?
  {
    if bs != [] {
      var p, last := bs[..|bs| - 1], bs[|bs| - 1];
      TableKeys(p);
      forall id ensures id in Table(bs) <==> IndexOf(bs, id).Some? {
        if id != last.batchId {
          if IndexOf(p, id).Some? {
            var k := IndexOf(p, id).value;
            assert bs[k] == p[k];
          }
          if IndexOf(bs, id).Some? {
            var k := IndexOf(bs, id).value;
            assert p[k] == bs[k];
          }
        }
      }
    }
  }

  /** With unique ids the table holds exactly one record per stored batch,
      and that record is the stored one. */
  lemma {:induction false} TableOneRecordPerBatch(bs: seq<Batch>)
    requires UniqueIds(bs)
    ensures |Table(bs)| == |bs|
    ensures forall i :: 0 <= i < |bs| ==> bs[i].batchId in Table(bs) && Table(bs)[bs[i].batchId] == bs[i]
  {
    if bs != [] {
      var p, last := bs[..|bs| - 1], bs[|bs| - 1];
      assert UniqueIds(p);
      TableOneRecordPerBatch(p);
      TableKeys(p);
      assert IndexOf(p, last.batchId).None? by {
        forall k | 0 <= k < |p| ensures p[k].batchId != last.batchId {
          assert p[k] == bs[k];
        }
      }
      forall i | 0 <= i < |bs| - 1
        ensures bs[i].batchId in Table(bs) && Table(bs)[bs[i].batchId] == bs[i]
      {
        assert p[i] == bs[i];
      }
    }
  }

  /** The Event filter `{batchId: id}`. */
  function ForBatch(id: string): (p: Event -> bool)
    ensures forall e :: p(e) <==> e.batchId == id
  {
    (e: Event) => e.batchId == id
  }

  /** `Batch.find().sort({createdAt: -1})`: every batch, newest first. */
  function NewestBatchesFirst(bs: seq<Batch>): (r: seq<Batch>)
    ensures multiset(r) == multiset(bs)
    ensures forall i, j :: 0 <= i < j < |r| ==> r[i].createdAt >= r[j].createdAt
  {
    var r := SortBy(bs, NewestCreatedFirst);
    assert forall i, j :: 0 <= i < j < |r| ==> NewestCreatedFirst(r[i]) <= NewestCreatedFirst(r[j]);
    r
  }

  /** `Event.find().sort({timestamp: -1})`: the whole ledger, newest first. */
  function LedgerView(es: seq<Event>): (r: seq<Event>)
    ensures multiset(r) == multiset(es)
    ensures forall i, j :: 0 <= i < j < |r| ==> r[i].timestamp >= r[j].timestamp
  {
    var r := SortBy(es, NewestStampFirst);
    assert forall i, j :: 0 <= i < j < |r| ==> NewestStampFirst(r[i]) <= NewestStampFirst(r[j]);
    r
  }

  /** `Event.find({batchId: id}).sort({timestamp: 1})`: the events recorded
      for one batch, oldest first. Nothing else is returned and nothing
      recorded for the batch is left out. */
  function VerifyView(es: seq<Event>, id: string): (r: seq<Event>)
    ensures forall i :: 0 <= i < |r| ==> r[i].batchId == id && r[i] in es
    ensures forall i :: 0 <= i < |es| && es[i].batchId == id ==> es[i] in r
    ensures forall i, j :: 0 <= i < j < |r| ==> r[i].timestamp <= r[j].timestamp
    ensures multiset(r) == multiset(Filter(es, ForBatch(id)))
  {
    var r := SortBy(Filter(es, ForBatch(id)), Stamp);
    SortedFilterMembers(es, ForBatch(id), r);
    assert forall i, j :: 0 <= i < j < |r| ==> Stamp(r[i]) <= Stamp(r[j]);
    r
  }

  /** A reordering of a filter's result holds exactly the matching
      elements. */
  lemma SortedFilterMembers<T>(s: seq<T>, p: T -> bool, r: seq<T>)
    requires multiset(r) == multiset(Filter(s, p))
    ensures forall i :: 0 <= i < |r| ==> p(r[i]) && r[i] in s
    ensures forall i :: 0 <= i < |s| && p(s[i]) ==> s[i] in r
  {
    var f := Filter(s, p);
    PermutationSameMembers(r, f);
    forall i | 0 <= i < |r| ensures p(r[i]) && r[i] in s {
      var k :| 0 <= k < |f| && f[k] == r[i];
    }
    forall i | 0 <= i < |s| && p(s[i]) ensures s[i] in r {
      var k :| 0 <= k < |f| && f[k] == s[i];
    }
  }

  /** With the clock's stamps, newest first is reverse insertion order. */
  lemma NewestBatchesFirstIsReverse(bs: seq<Batch>)
    requires StrictlySortedBy(bs, CreatedAt)
    ensures NewestBatchesFirst(bs) == Reverse(bs)
  {
    SortDescendingIsReverse(bs, CreatedAt, NewestCreatedFirst);
  }

  /** With the clock's stamps, the ledger view is the ledger read back to
      front, and no two of its entries share a timestamp. */
  lemma LedgerIsReverseInsertionOrder(es: seq<Event>)
    requires StrictlySortedBy(es, Stamp)
    ensures LedgerView(es) == Reverse(es)
  {
    SortDescendingIsReverse(es, Stamp, NewestStampFirst);
  }

  /** A filter keeps strictly increasing keys strictly increasing. */
  lemma {:induction false} FilterKeepsStrictOrder<T>(s: seq<T>, p: T -> bool, key: T -> int)
    requires StrictlySortedBy(s, key)
    ensures StrictlySortedBy(Filter(s, p), key)
  {
    if s != [] {
      var t, ft := s[1..], Filter(s[1..], p);
      FilterKeepsStrictOrder(t, p, key);
      FilterAbove(t, p, key(s[0]), key);
      if p(s[0]) {
        ConsStrictlySorted(s[0], ft, key);
        assert Filter(s, p) == [s[0]] + ft;
      } else {
        assert Filter(s, p) == ft;
      }
    }
  }

  /** A filter keeps every key above a bound above it. */
  lemma {:induction false} FilterAbove<T>(s: seq<T>, p: T -> bool, lo: int, key: T -> int)
    requires forall i :: 0 <= i < |s| ==> lo < key(s[i])
    ensures forall i :: 0 <= i < |Filter(s, p)| ==> lo < key(Filter(s, p)[i])
  {
    if s != [] {
      var ft := Filter(s[1..], p);
      FilterAbove(s[1..], p, lo, key);
      if p(s[0]) {
        var f := [s[0]] + ft;
        assert Filter(s, p) == f;
        forall i | 1 <= i < |f| ensures lo < key(f[i]) {
          assert f[i] == ft[i - 1];
        }
      } else {
        assert Filter(s, p) == ft;
      }
    }
  }

  /** With the clock's stamps, a batch's verification history is its
      events in the order they were recorded, strictly ascending in time. */
  lemma VerifyIsInsertionOrder(es: seq<Event>, id: string)
    requires StrictlySortedBy(es, Stamp)
    ensures VerifyView(es, id) == Filter(es, ForBatch(id))
    ensures StrictlySortedBy(VerifyView(es, id), Stamp)
  {
    FilterKeepsStrictOrder(es, ForBatch(id), Stamp);
    SortOfStrictlySortedIsIdentity(Filter(es, ForBatch(id)), Stamp);
  }

  /** Appending one event extends its batch's history by that event and
      leaves every other batch's history as it was. */
  lemma VerifyAfterAppend(es: seq<Event>, e: Event, id: string)
    requires StrictlySortedBy(es + [e], Stamp)
    ensures VerifyView(es + [e], id) == VerifyView(es, id) + (if e.batchId == id then [e] else [])
  {
    assert StrictlySortedBy(es, Stamp) by {
      forall i, j | 0 <= i < j < |es| ensures Stamp(es[i]) < Stamp(es[j]) {
        assert es[i] == (es + [e])[i] && es[j] == (es + [e])[j];
      }
    }
    VerifyIsInsertionOrder(es, id);
    VerifyIsInsertionOrder(es + [e], id);
    FilterAppend(es, [e], ForBatch(id));
    assert Filter([e], ForBatch(id)) == (if e.batchId == id then [e] else []) by {
      assert [e][1..] == [];
    }
  }

  /** The two collections and the clock. `eventSchema` says which Event
      schema the deployment registered. */
  class Db {
    const eventSchema: EventSchema
    var batches: seq<Batch>
    var events: seq<Event>
    var clock: Time

    ghost predicate Valid()
      reads this
    {
      WellFormed(batches, events, clock)
    }

    /** Everything a handler can write, for "nothing was written". */
    ghost function Snapshot(): (seq<Batch>, seq<Event>, Time)
      reads this
    {
      (batches, events, clock)
    }

    constructor (schema: EventSchema, start: Time)
      ensures Valid()
      ensures eventSchema == schema && batches == [] && events == [] && clock == start
    {
      eventSchema := schema;
      batches, events, clock := [], [], start;
    }

    /** `Batch.create(fields)`: schema validation first, then the unique
        index on batchId; on success the document goes to the end of the
        collection, stamped with the clock. */
    method CreateBatch(batchId: string, drugName: string, stage: Option<string>) returns (r: Result<Batch>)
      requires Valid()
      modifies this
      ensures Valid()
      ensures events == old(events)
      ensures r.Ok? <==> batchId != "" && IndexOf(old(batches), batchId).None?
      ensures batchId == "" ==> r == Err(InvalidInput)
      ensures batchId != "" && IndexOf(old(batches), batchId).Some? ==> r == Err(DuplicateBatch)
      ensures r.Err? ==> batches == old(batches) && clock == old(clock)
      ensures r.Ok? ==> r == NewBatch(batchId, drugName, stage, old(clock))
      ensures r.Ok? ==> batches == old(batches) + [r.value] && clock == old(clock) + 1
    {
      r := NewBatch(batchId, drugName, stage, clock);
      if r.Err? {
        return;
      }
      if IndexOf(batches, batchId).Some? {
        r := Err(DuplicateBatch);
        return;
      }
      batches := batches + [r.value];
      clock := clock + 1;
    }

    /** `batch.save()` after assigning `stage` and `status` of the fetched
        batch at position `i`. */
    method SaveStageAndStatus(i: nat, stage: string, status: string)
      requires Valid() && i < |batches|
      modifies this
      ensures Valid()
      ensures batches == old(batches)[i := old(batches)[i].(stage := stage, status := status)]
      ensures events == old(events) && clock == old(clock)
    {
      var bs := batches[i := batches[i].(stage := stage, status := status)];
      SameKeysKeepWellFormed(batches, bs, events, clock);
      batches := bs;
    }

    /** `Batch.findOneAndUpdate({batchId}, {stage}, {new: true})`: sets the
        stage of the batch with that id, if any, and returns it updated.
        No validator runs on the new value. */
    method FindOneAndUpdateStage(batchId: string, stage: string) returns (r: Option<Batch>)
      requires Valid()
      modifies this
      ensures Valid()
      ensures events == old(events) && clock == old(clock)
      ensures IndexOf(old(batches), batchId).None? ==> r.None? && batches == old(batches)
      ensures IndexOf(old(batches), batchId).Some? ==>
        var i := IndexOf(old(batches), batchId).value;
        batches == old(batches)[i := old(batches)[i].(stage := stage)] && r == Some(batches[i])
    {
      var found := IndexOf(batches, batchId);
      if found.None? {
        return None;
      }
      var i := found.value;
      var bs := batches[i := batches[i].(stage := stage)];
      SameKeysKeepWellFormed(batches, bs, events, clock);
      batches := bs;
      r := Some(batches[i]);
    }

    /** `Event.create(fields)`: validation under the registered schema; on
        success the event goes to the end of the ledger, stamped with the
        clock. */
    method CreateEvent(batchId: string, actor: string, action: string, notes: string) returns (r: Result<Event>)
      requires Valid()
      modifies this
      ensures Valid()
      ensures batches == old(batches)
      ensures r == NewEvent(eventSchema, batchId, actor, action, notes, old(clock))
      ensures r.Ok? ==> events == old(events) + [r.value] && clock == old(clock) + 1
      ensures r.Err? ==> events == old(events) && clock == old(clock)
    {
      r := NewEvent(eventSchema, batchId, actor, action, notes, clock);
      if r.Ok? {
        events := events + [r.value];
        clock := clock + 1;
      }
    }

    /** `Batch.deleteMany()`. */
    method DeleteManyBatches()
      requires Valid()
      modifies this
      ensures Valid()
      ensures batches == [] && events == old(events) && clock == old(clock)
    {
      batches := [];
    }

    /** `Event.deleteMany()`. */
    method DeleteManyEvents()
      requires Valid()
      modifies this
      ensures Valid()
      ensures events == [] && batches == old(batches) && clock == old(clock)
    {
      events := [];
    }
  }
}
