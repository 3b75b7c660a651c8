/** The outbox publisher: workers take disjoint locked rows, deliver them, and commit or roll back. */
module Outbox {
  import opened Entities

  type RowId = nat    // position in the table, which only grows
  type BatchId = nat

  datatype Row = Row(createdAt: Instant, published: bool, attempts: nat)

  /** What one batch writes for the rows whose delivery has been tried: a row is marked published
      when the bus took its event, and its attempts are counted when the bus raised. */
  function Written(rows: seq<Row>, ids: seq<RowId>, replies: seq<bool>): (written: seq<Row>)
    requires |replies| <= |ids| && forall k :: 0 <= k < |ids| ==> ids[k] < |rows|
    ensures |written| == |rows|
  {
    if replies == [] then rows
    else
      var k := |replies| - 1;
      var before := Written(rows, ids, replies[..k]);
      before[ids[k] := if replies[k] then before[ids[k]].(published := true)
                       else before[ids[k]].(attempts := before[ids[k]].attempts + 1)]
  }

  function Delivered(replies: seq<bool>): nat {
    if replies == [] then 0 else Delivered(replies[..|replies| - 1]) + (if replies[|replies| - 1] then 1 else 0)
  }

  class OutboxPublisher {
    var rows: seq<Row>

    constructor (rows: seq<Row>)
      ensures this.rows == rows
    {
      this.rows := rows;
    }

    /** ids are the rows the query locked; replies[k] says whether the bus took the event of ids[k]. */
    method PublishBatch(ids: seq<RowId>, replies: seq<bool>) returns (published: nat)
      requires |replies| == |ids| && forall k :: 0 <= k < |ids| ==> ids[k] < |rows|
      modifies this
      ensures rows == Written(old(rows), ids, replies)
      ensures published == Delivered(replies)
    {
      published := 0;
      for k := 0 to |ids|
        invariant rows == Written(old(rows), ids, replies[..k]) && published == Delivered(replies[..k])
      {
        assert replies[..k + 1][..k] == replies[..k];
        var row := rows[ids[k]];
        if replies[k] {
          rows := rows[ids[k] := row.(published := true)];
          published := published + 1;
        } else {
          rows := rows[ids[k] := row.(attempts := row.attempts + 1)];
        }
      }
      assert replies[..|ids|] == replies;
    }
  }

  lemma {:induction false} WrittenRow(rows: seq<Row>, ids: seq<RowId>, replies: seq<bool>, id: RowId)
    requires |replies| <= |ids| && (forall k :: 0 <= k < |ids| ==> ids[k] < |rows|) && id < |rows|
    ensures Written(rows, ids, replies)[id].published <==>
      rows[id].published || exists k :: 0 <= k < |replies| && ids[k] == id && replies[k]
    ensures Written(rows, ids, replies)[id].createdAt == rows[id].createdAt
  {
    if replies != [] {
      WrittenRow(rows, ids, replies[..|replies| - 1], id);
    }
  }

  // ----- workers side by side -----

  datatype Phase = Open | Committed | RolledBack

  datatype Batch = Batch(ids: seq<RowId>, replies: seq<bool>, phase: Phase)

  datatype Delivery = Delivery(row: RowId, batch: BatchId)

  /** deliveries is what the bus took, in order; a rollback does not take it back. */
  datatype State = State(rows: seq<Row>, batches: seq<Batch>, deliveries: seq<Delivery>)

  datatype Event =
    | Add(createdAt: Instant)
    | Start(ids: seq<RowId>, limit: nat)
    | Publish(batch: BatchId, taken: bool)
    | Commit(batch: BatchId)
    | Rollback(batch: BatchId)

  predicate Locked(batches: seq<Batch>, id: RowId) {
    exists b :: 0 <= b < |batches| && batches[b].phase == Open && id in batches[b].ids
  }

  predicate Selectable(s: State, id: RowId) {
    id < |s.rows| && !s.rows[id].published && !Locked(s.batches, id)
  }

  predicate Distinct(ids: seq<RowId>) { forall i, j :: 0 <= i < j < |ids| ==> ids[i] != ids[j] }

  /** ids is what the query returns: the oldest selectable rows, up to the limit. */
  ghost predicate Query(s: State, ids: seq<RowId>, limit: nat) {
    && |ids| <= limit && Distinct(ids)
    && (forall k :: 0 <= k < |ids| ==> Selectable(s, ids[k]))
    && (forall i, j :: 0 <= i < j < |ids| ==> s.rows[ids[i]].createdAt <= s.rows[ids[j]].createdAt)
    && (forall id: RowId :: Selectable(s, id) && id !in ids ==>
          |ids| == limit && forall k :: 0 <= k < |ids| ==> s.rows[ids[k]].createdAt <= s.rows[id].createdAt)
  }

  ghost predicate Enabled(s: State, e: Event) {
    match e
    case Add(_) => true
    case Start(ids, limit) => Query(s, ids, limit)
    case Publish(b, _) => b < |s.batches| && s.batches[b].phase == Open && |s.batches[b].replies| < |s.batches[b].ids|
    case Commit(b) => b < |s.batches| && s.batches[b].phase == Open && |s.batches[b].replies| == |s.batches[b].ids|
    case Rollback(b) => b < |s.batches| && s.batches[b].phase == Open
  }

  ghost predicate RowsExist(s: State) {
    forall b, k :: 0 <= b < |s.batches| && 0 <= k < |s.batches[b].ids| ==> s.batches[b].ids[k] < |s.rows|
  }

  function Step(s: State, e: Event): State
    requires RowsExist(s) && Enabled(s, e)
  {
    match e
    case Add(createdAt) => s.(rows := s.rows + [Row(createdAt, false, 0)])
    case Start(ids, _) => s.(batches := s.batches + [Batch(ids, [], Open)])
    case Publish(b, taken) =>
      var batch := s.batches[b];
      State(s.rows,
            s.batches[b := batch.(replies := batch.replies + [taken])],
            if taken then s.deliveries + [Delivery(batch.ids[|batch.replies|], b)] else s.deliveries)
    case Commit(b) =>
      var batch := s.batches[b];
      s.(rows := Written(s.rows, batch.ids, batch.replies), batches := s.batches[b := batch.(phase := Committed)])
    case Rollback(b) => s.(batches := s.batches[b := s.batches[b].(phase := RolledBack)])
  }

  // ----- the invariant -----

  /** The bus took the event of id in this batch. */
  ghost predicate Sent(batch: Batch, id: RowId) {
    exists k :: 0 <= k < |batch.replies| && k < |batch.ids| && batch.ids[k] == id && batch.replies[k]
  }

  ghost predicate BatchesFit(rowCount: nat, batches: seq<Batch>) {
    forall b :: 0 <= b < |batches| ==>
      && |batches[b].replies| <= |batches[b].ids|
      && Distinct(batches[b].ids)
      && forall k :: 0 <= k < |batches[b].ids| ==> batches[b].ids[k] < rowCount
  }

  ghost predicate OpenRowsUnpublished(rows: seq<Row>, batches: seq<Batch>) {
    forall b, id :: 0 <= b < |batches| && batches[b].phase == Open && id in batches[b].ids ==>
      id < |rows| && !rows[id].published
  }

  ghost predicate OpenDisjoint(batches: seq<Batch>) {
    forall b, c, id :: 0 <= b < c < |batches| && batches[b].phase == Open && batches[c].phase == Open ==>
      !(id in batches[b].ids && id in batches[c].ids)
  }

  ghost predicate PublishedExactly(rows: seq<Row>, batches: seq<Batch>) {
    forall id: RowId :: id < |rows| ==>
      (rows[id].published <==> exists b :: 0 <= b < |batches| && batches[b].phase == Committed && Sent(batches[b], id))
  }

  ghost predicate DeliveriesExactly(batches: seq<Batch>, deliveries: seq<Delivery>) {
    forall d: Delivery :: d in deliveries <==> d.batch < |batches| && Sent(batches[d.batch], d.row)
  }

  /** A row whose event is delivered again was rolled back after the earlier delivery. */
  ghost predicate RepeatsFollowRollbacks(batches: seq<Batch>, deliveries: seq<Delivery>) {
    forall i, j :: 0 <= i < j < |deliveries| && deliveries[i].row == deliveries[j].row ==>
      deliveries[i].batch < |batches| && batches[deliveries[i].batch].phase == RolledBack
  }

  ghost predicate Inv(s: State) {
    && BatchesFit(|s.rows|, s.batches)
    && OpenRowsUnpublished(s.rows, s.batches)
    && OpenDisjoint(s.batches)
    && PublishedExactly(s.rows, s.batches)
    && DeliveriesExactly(s.batches, s.deliveries)
    && RepeatsFollowRollbacks(s.batches, s.deliveries)
  }

  lemma AddKeepsInv(s: State, createdAt: Instant)
    requires Inv(s)
    ensures Inv(Step(s, Add(createdAt)))
  {
    var after := Step(s, Add(createdAt));
    assert forall b :: 0 <= b < |s.batches| ==> !Sent(s.batches[b], |s.rows|);
  }

  lemma StartKeepsInv(s: State, ids: seq<RowId>, limit: nat)
    requires Inv(s) && Enabled(s, Start(ids, limit))
    ensures Inv(Step(s, Start(ids, limit)))
  {
    var after := Step(s, Start(ids, limit));
    assert forall b :: 0 <= b < |s.batches| ==> after.batches[b] == s.batches[b];
    assert forall id :: id in ids ==> Selectable(s, id);
    assert forall id :: !Sent(after.batches[|s.batches|], id);
  }

  /** Whether rows are published is not touched by an open batch that does not commit. */
  lemma OpenBatchPublishesNothing(rows: seq<Row>, batches: seq<Batch>, b: BatchId, batch: Batch)
    requires b < |batches| && batches[b].phase == Open && batch.phase != Committed
    requires PublishedExactly(rows, batches)
    ensures PublishedExactly(rows, batches[b := batch])
  {
    var after := batches[b := batch];
    forall id: RowId | id < |rows|
      ensures rows[id].published <==> exists c :: 0 <= c < |after| && after[c].phase == Committed && Sent(after[c], id)
    {
      if c :| 0 <= c < |batches| && batches[c].phase == Committed && Sent(batches[c], id) {
        assert after[c] == batches[c];
      }
    }
  }

  lemma SentIsListed(batch: Batch, id: RowId)
    ensures Sent(batch, id) ==> id in batch.ids
  {
  }

  lemma OpenRowIsUnpublished(s: State, b: BatchId, id: RowId)
    requires Inv(s) && b < |s.batches| && s.batches[b].phase == Open && id in s.batches[b].ids
    ensures forall c :: 0 <= c < |s.batches| && s.batches[c].phase == Committed ==> !Sent(s.batches[c], id)
    ensures forall c :: 0 <= c < |s.batches| && s.batches[c].phase == Open && c != b ==> id !in s.batches[c].ids
  {
    assert !s.rows[id].published;
  }

  lemma SentAfterPublish(batch: Batch, taken: bool, id: RowId)
    requires |batch.replies| < |batch.ids| && Distinct(batch.ids)
    ensures Sent(batch.(replies := batch.replies + [taken]), id) <==>
              Sent(batch, id) || (taken && id == batch.ids[|batch.replies|])
    ensures !Sent(batch, batch.ids[|batch.replies|])
  {
    var n, after := |batch.replies|, batch.(replies := batch.replies + [taken]);
    if Sent(batch, id) {
      var k :| 0 <= k < n && batch.ids[k] == id && batch.replies[k];
      assert after.replies[k];
    }
    if taken {
      assert after.replies[n];
    }
  }

  lemma PublishKeepsDeliveries(s: State, b: BatchId, taken: bool)
    requires Inv(s) && Enabled(s, Publish(b, taken))
    ensures var after := Step(s, Publish(b, taken)); DeliveriesExactly(after.batches, after.deliveries)
  {
    var after := Step(s, Publish(b, taken));
    forall d: Delivery
      ensures d in after.deliveries <==> d.batch < |after.batches| && Sent(after.batches[d.batch], d.row)
    {
      SentAfterPublish(s.batches[b], taken, d.row);
    }
  }

  lemma PublishKeepsRepeats(s: State, b: BatchId, taken: bool)
    requires Inv(s) && Enabled(s, Publish(b, taken))
    ensures var after := Step(s, Publish(b, taken)); RepeatsFollowRollbacks(after.batches, after.deliveries)
  {
    var id := s.batches[b].ids[|s.batches[b].replies|];
    SentAfterPublish(s.batches[b], taken, id);
    forall i | 0 <= i < |s.deliveries| && s.deliveries[i].row == id
      ensures s.deliveries[i].batch < |s.batches| && s.batches[s.deliveries[i].batch].phase == RolledBack
    {
      var earlier := s.deliveries[i].batch;
      assert s.deliveries[i] in s.deliveries;
      SentIsListed(s.batches[earlier], id);
      OpenRowIsUnpublished(s, b, id);
      assert earlier != b;
    }
  }

  lemma PublishKeepsInv(s: State, b: BatchId, taken: bool)
    requires Inv(s) && Enabled(s, Publish(b, taken))
    ensures Inv(Step(s, Publish(b, taken)))
  {
    PublishKeepsDeliveries(s, b, taken);
    PublishKeepsRepeats(s, b, taken);
    OpenBatchPublishesNothing(s.rows, s.batches, b, s.batches[b].(replies := s.batches[b].replies + [taken]));
  }

  lemma CommitPublishes(s: State, b: BatchId, id: RowId)
    requires Inv(s) && Enabled(s, Commit(b)) && id < |s.rows|
    ensures Step(s, Commit(b)).rows[id].published <==> s.rows[id].published || Sent(s.batches[b], id)
  {
    WrittenRow(s.rows, s.batches[b].ids, s.batches[b].replies, id);
  }

  lemma CommitKeepsInv(s: State, b: BatchId)
    requires Inv(s) && Enabled(s, Commit(b))
    ensures Inv(Step(s, Commit(b)))
  {
    var after := Step(s, Commit(b));
    forall id: RowId | id < |s.rows|
      ensures after.rows[id].published <==> s.rows[id].published || Sent(s.batches[b], id)
    {
      CommitPublishes(s, b, id);
    }
    forall c | 0 <= c < |s.batches|
      ensures after.batches[c].ids == s.batches[c].ids && after.batches[c].replies == s.batches[c].replies
      ensures forall id :: Sent(after.batches[c], id) <==> Sent(s.batches[c], id)
    {
    }
    CommitKeepsPublished(s, b);
    CommitKeepsOpenRows(s, b);
  }

  lemma CommitKeepsPublished(s: State, b: BatchId)
    requires Inv(s) && Enabled(s, Commit(b))
    ensures PublishedExactly(Step(s, Commit(b)).rows, Step(s, Commit(b)).batches)
  {
    var after := Step(s, Commit(b));
    forall id: RowId | id < |s.rows|
      ensures after.rows[id].published <==>
        exists c :: 0 <= c < |after.batches| && after.batches[c].phase == Committed && Sent(after.batches[c], id)
    {
      CommitPublishes(s, b, id);
      assert Sent(after.batches[b], id) <==> Sent(s.batches[b], id);
      if c :| 0 <= c < |s.batches| && s.batches[c].phase == Committed && Sent(s.batches[c], id) {
        assert after.batches[c] == s.batches[c];
      }
    }
  }

  lemma CommitKeepsOpenRows(s: State, b: BatchId)
    requires Inv(s) && Enabled(s, Commit(b))
    ensures OpenRowsUnpublished(Step(s, Commit(b)).rows, Step(s, Commit(b)).batches)
  {
    var after := Step(s, Commit(b));
    forall c, id | 0 <= c < |after.batches| && after.batches[c].phase == Open && id in after.batches[c].ids
      ensures id < |after.rows| && !after.rows[id].published
    {
      CommitPublishes(s, b, id);
      SentIsListed(s.batches[b], id);
    }
  }

  lemma RollbackKeepsInv(s: State, b: BatchId)
    requires Inv(s) && Enabled(s, Rollback(b))
    ensures Inv(Step(s, Rollback(b)))
  {
    OpenBatchPublishesNothing(s.rows, s.batches, b, s.batches[b].(phase := RolledBack));
  }

  lemma StepKeepsInv(s: State, e: Event)
    requires Inv(s) && Enabled(s, e)
    ensures Inv(Step(s, e))
  {
    match e
    case Add(createdAt) => AddKeepsInv(s, createdAt);
    case Start(ids, limit) => StartKeepsInv(s, ids, limit);
    case Publish(b, taken) => PublishKeepsInv(s, b, taken);
    case Commit(b) => CommitKeepsInv(s, b);
    case Rollback(b) => RollbackKeepsInv(s, b);
  }

  // ----- whole runs -----

  /** s is reached from the empty table by the events. */
  ghost predicate Reached(events: seq<Event>, s: State) {
    if events == [] then s == State([], [], [])
    else
      exists before :: Reached(events[..|events| - 1], before) && RowsExist(before)
        && Enabled(before, events[|events| - 1]) && s == Step(before, events[|events| - 1])
  }

  lemma {:induction false} ReachedKeepsInv(events: seq<Event>, s: State)
    requires Reached(events, s)
    ensures Inv(s)
  {
    if events != [] {
      var last := |events| - 1;
      var before :| Reached(events[..last], before) && RowsExist(before)
        && Enabled(before, events[last]) && s == Step(before, events[last]);
      ReachedKeepsInv(events[..last], before);
      StepKeepsInv(before, events[last]);
    }
  }

  /** A row is marked published exactly when a committed batch delivered its event. */
  lemma {:induction false} PublishedMeansDelivered(events: seq<Event>, s: State, id: RowId)
    requires Reached(events, s) && id < |s.rows|
    ensures s.rows[id].published <==>
      exists d :: d in s.deliveries && d.row == id && d.batch < |s.batches| && s.batches[d.batch].phase == Committed
  {
    ReachedKeepsInv(events, s);
    if s.rows[id].published {
      var b :| 0 <= b < |s.batches| && s.batches[b].phase == Committed && Sent(s.batches[b], id);
      assert Delivery(id, b) in s.deliveries;
    }
  }

  /** An event is delivered a second time only if the batch of every earlier delivery was rolled
      back, so committed batches never deliver a row twice. */
  lemma {:induction false} CommittedDeliveriesAreUnique(events: seq<Event>, s: State, i: nat, j: nat)
    requires Reached(events, s) && i < j < |s.deliveries| && s.deliveries[i].row == s.deliveries[j].row
    ensures s.deliveries[i].batch < |s.batches| && s.batches[s.deliveries[i].batch].phase == RolledBack
  {
    ReachedKeepsInv(events, s);
  }

  /** A rollback makes exactly the rows of the batch selectable again. */
  lemma {:induction false} RollbackReleasesTheBatch(events: seq<Event>, s: State, b: BatchId, id: RowId)
    requires Reached(events, s) && Enabled(s, Rollback(b))
    ensures RowsExist(s)
    ensures Selectable(Step(s, Rollback(b)), id) <==> Selectable(s, id) || id in s.batches[b].ids
  {
    ReachedKeepsInv(events, s);
    var after := Step(s, Rollback(b));
    if Locked(s.batches, id) && id !in s.batches[b].ids {
      var c :| 0 <= c < |s.batches| && s.batches[c].phase == Open && id in s.batches[c].ids;
      assert after.batches[c] == s.batches[c];
    }
    assert Locked(after.batches, id) ==> Locked(s.batches, id);
  }
}
