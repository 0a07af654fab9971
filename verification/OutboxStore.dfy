/** The in-memory outbox store: mutable records, the claim loop and the lease checks. */
module OutboxStore {
  import opened Wrappers
  import opened OutboxModel
  import Orders

  /** The partitions that have an incomplete record among the first `k`. */
  ghost function Open(records: Records, order: seq<Stamp>, k: nat): set<Partition>
    requires k <= |order|
  {
    set j | 0 <= j < k && order[j].eventId in records && !records[order[j].eventId].state.Completed?
      :: records[order[j].eventId].data.PartitionKey()
  }

  lemma OpenStep(records: Records, order: seq<Stamp>, k: nat)
    requires k < |order| && order[k].eventId in records
    ensures Open(records, order, k + 1) == Open(records, order, k)
      + if records[order[k].eventId].state.Completed? then {} else {records[order[k].eventId].data.PartitionKey()}
  {
    forall p | p in Open(records, order, k)
      ensures p in Open(records, order, k + 1)
    {
      var j :| 0 <= j < k && order[j].eventId in records && !records[order[j].eventId].state.Completed?
        && records[order[j].eventId].data.PartitionKey() == p;
      assert 0 <= j < k + 1;
    }
  }

  lemma ListingEntries(records: Records, order: seq<Stamp>)
    requires WellFormed(records)
    requires Orders.Sorted(order, Before) && Orders.Lists(order, Stamps(records))
    ensures forall j :: 0 <= j < |order| ==>
      order[j].eventId in records && records[order[j].eventId].data.Key() == order[j]
    ensures forall i, j :: 0 <= i < j < |order| ==> order[i].eventId != order[j].eventId
  {
    forall j | 0 <= j < |order|
      ensures order[j].eventId in records && records[order[j].eventId].data.Key() == order[j]
    {
      assert order[j] in Stamps(records);
    }
    BeforeIsTotal();
  }

  /** A sorted listing visits the head of a partition before its other incomplete records. */
  lemma HeadIsFirstIncomplete(records: Records, order: seq<Stamp>, k: nat)
    requires WellFormed(records)
    requires Orders.Sorted(order, Before) && Orders.Lists(order, Stamps(records)) && k < |order|
    ensures order[k].eventId in records
    ensures IsHead(records, order[k].eventId) <==>
      !records[order[k].eventId].state.Completed?
      && records[order[k].eventId].data.PartitionKey() !in Open(records, order, k)
  {
    ListingEntries(records, order);
    BeforeIsTotal();
    var id := order[k].eventId;
    if j :| 0 <= j < k && !records[order[j].eventId].state.Completed? && SamePartition(records, order[j].eventId, id) {
      assert Precedes(records, order[j].eventId, id);
    }
    forall q | q in records && Precedes(records, q, id)
      ensures exists j :: 0 <= j < k && order[j].eventId == q
    {
      assert records[q].data.Key() in Stamps(records);
      var j :| 0 <= j < |order| && order[j] == records[q].data.Key();
      assert j < k;
    }
  }

  /** One round of the claim loop: the next listed record is selected exactly when the loop's tests let it through. */
  lemma ClaimRound(records: Records, order: seq<Stamp>, k: nat, at: int)
    requires WellFormed(records)
    requires Orders.Sorted(order, Before) && Orders.Lists(order, Stamps(records)) && k < |order|
    ensures order[k].eventId in records && order[k].eventId !in Select(order[..k], records, at)
    ensures var id := order[k].eventId;
      var r := records[id];
      && Open(records, order, k + 1)
         == Open(records, order, k) + (if r.state.Completed? then {} else {r.data.PartitionKey()})
      && Select(order[..k + 1], records, at) == Select(order[..k], records, at)
         + if !r.state.Completed? && r.data.PartitionKey() !in Open(records, order, k) && Eligible(r, at)
           then [id] else []
  {
    HeadIsFirstIncomplete(records, order, k);
    OpenStep(records, order, k);
    ListingEntries(records, order);
    assert order[..k + 1][..k] == order[..k];
  }

  /** The snapshots handed to the caller: the leased records, in claim order. */
  ghost function LeaseSnapshots(records: Records, ids: seq<string>, owner: string, at: int,
                                duration: int): (r: seq<Record>)
    requires forall id :: id in ids ==> id in records
    ensures |r| == |ids|
  {
    seq(|ids|, k requires 0 <= k < |ids| => Leasing(records[ids[k]], owner, at, duration))
  }

  lemma LeaseOneMore(records: Records, ids: seq<string>, id: string, owner: string, at: int, duration: int)
    requires id in records && id !in ids
    requires forall q :: q in ids ==> q in records
    ensures forall q :: q in ids + [id] ==> q in records
    ensures LeaseSnapshots(records, ids + [id], owner, at, duration)
      == LeaseSnapshots(records, ids, owner, at, duration) + [Leasing(records[id], owner, at, duration)]
    ensures id in LeaseAll(records, ids, owner, at, duration)
    ensures LeaseAll(records, ids, owner, at, duration)[id] == records[id]
    ensures LeaseAll(records, ids + [id], owner, at, duration)
      == LeaseAll(records, ids, owner, at, duration)[id := Leasing(records[id], owner, at, duration)]
  {
  }

  lemma NothingLeased(records: Records, order: seq<Stamp>, owner: string, at: int, duration: int)
    ensures LeaseAll(records, [], owner, at, duration) == records
    ensures LeaseSnapshots(records, [], owner, at, duration) == [] && Select([], records, at) == []
    ensures Open(records, order, 0) == {}
  {
  }

  lemma {:induction false} SelectPrefix(order: seq<Stamp>, k: nat, records: Records, at: int)
    requires k <= |order|
    ensures Select(order[..k], records, at) <= Select(order, records, at)
    decreases |order|
  {
    if k < |order| {
      assert order[..|order| - 1][..k] == order[..k];
      SelectPrefix(order[..|order| - 1], k, records, at);
    } else {
      assert order[..k] == order;
    }
  }

  /** Leaving the loop: the chosen ids are the first `limit` of all that could be claimed. */
  lemma ClaimDone(records: Records, order: seq<Stamp>, k: nat, limit: nat, at: int)
    requires order == SortedStamps(records) && k <= |order|
    requires var ids := Select(order[..k], records, at); |ids| == limit || (k == |order| && |ids| < limit)
    ensures Select(order[..k], records, at) == ClaimIds(records, limit, at)
  {
    SelectPrefix(order, k, records, at);
    assert order[..|order|] == order;
  }

  lemma WellFormedUpdate(records: Records, id: string, r: Record)
    requires WellFormed(records) && RecordWellFormed(id, r)
    ensures WellFormed(records[id := r])
  {
  }

  lemma EntryWellFormed(records: Records, id: string)
    requires WellFormed(records) && id in records
    ensures RecordWellFormed(id, records[id])
  {
  }

  class MutableRecord {
    const data: OutboxData
    var state: State
    var attemptCount: nat
    var lease: Option<Lease>
    var failure: Option<Failure>
    var targetFingerprint: Option<string>
    var completedAt: Option<int>

    constructor (data: OutboxData)
      ensures Snapshot() == Fresh(data)
    {
      this.data := data;
      state, attemptCount := Pending, 0;
      lease, failure, targetFingerprint, completedAt := None, None, None, None;
    }

    function Snapshot(): Record
      reads this
    {
      Record(data, state, attemptCount, lease, failure, targetFingerprint, completedAt)
    }

    method LeaseTo(owner: string, now: int, duration: int)
      modifies this
      ensures Snapshot() == Leasing(old(Snapshot()), owner, now, duration)
    {
      attemptCount := attemptCount + 1;
      failure := None;
      state := Leased;
      lease := Some(Lease(owner, now, now + duration, attemptCount));
    }

    method Finish(fingerprint: string, now: int)
      modifies this
      ensures Snapshot() == Finished(old(Snapshot()), fingerprint, now)
    {
      state := Completed;
      lease := None;
      failure := None;
      targetFingerprint := Some(fingerprint);
      completedAt := Some(now);
    }
  }

  class InMemoryOutboxStore {
    const poisonThreshold: nat
    var records: map<string, MutableRecord>
    var checkpoints: map<Partition, Checkpoint>

    /** The mutable records; two ids never share one, because the id is part of the record's data. */
    ghost function Objects(): set<object>
      reads this`records
    {
      set id | id in records :: records[id]
    }

    ghost function Recs(): Records
      reads this`records, Objects()
    {
      map id | id in records :: records[id].Snapshot()
    }

    ghost function View(): Store
      reads this`records, this`checkpoints, Objects()
    {
      Store(Recs(), checkpoints)
    }

    ghost predicate Valid()
      reads this, Objects()
    {
      && poisonThreshold >= 1
      && (forall id :: id in records ==> records[id].data.eventId == id)
      && WellFormed(Recs())
      && CheckpointsWellFormed(checkpoints)
    }

    constructor (poisonThreshold: nat)
      requires poisonThreshold >= 1
      ensures Valid() && Objects() == {}
      ensures View() == Store(map[], map[]) && this.poisonThreshold == poisonThreshold
    {
      this.poisonThreshold := poisonThreshold;
      records, checkpoints := map[], map[];
    }

    method Append(data: OutboxData) returns (reply: Reply)
      requires Valid()
      modifies this
      ensures Valid()
      ensures forall o :: o in Objects() && o !in old(Objects()) ==> fresh(o)
      ensures Answer(View(), reply) == OutboxModel.Append(old(View()), data)
    {
      if data.eventId !in records {
        var record := new MutableRecord(data);
        records := records[data.eventId := record];
        assert Recs() == old(Recs())[data.eventId := Fresh(data)];
        return Done;
      }
      if records[data.eventId].data != data { return IdempotencyConflict; }
      reply := Done;
    }

    /** Lease up to `limit` partition heads to one owner. */
    method AtomicClaim(owner: string, limit: int, duration: int, now: int)
      returns (reply: Reply, claimed: seq<Record>, ghost ids: seq<string>)
      requires Valid()
      modifies Objects()
      ensures Valid() && records == old(records) && Objects() == old(Objects()) && checkpoints == old(checkpoints)
      ensures reply.Done? <==> owner != "" && limit >= 1 && duration > 0
      ensures !reply.Done? ==> reply.Invalid? && claimed == [] && ids == [] && View() == old(View())
      ensures reply.Done? ==> ids == ClaimIds(old(Recs()), limit, now)
      ensures forall id :: id in ids ==> id in old(Recs())
      ensures claimed == LeaseSnapshots(old(Recs()), ids, owner, now, duration)
      ensures View() == Store(LeaseAll(old(Recs()), ids, owner, now, duration), checkpoints)
    {
      hide WellFormed, Select, LeaseAll, LeaseSnapshots, Open, ClaimIds, CheckpointsWellFormed, Leasing, SortedStamps;
      claimed, ids := [], [];
      ghost var before := Recs();
      NothingLeased(before, [], owner, now, duration);
      if owner == "" || limit < 1 || duration <= 0 { return Invalid, [], []; }
      reply := Done;
      var ordered := SortedRecords();
      NothingLeased(before, ordered, owner, now, duration);
      assert ordered[..0] == [];
      var seenPartitions: set<Partition> := {};
      var k := 0;
      while k < |ordered|
        invariant 0 <= k <= |ordered|
        invariant Valid() && records == old(records) && checkpoints == old(checkpoints)
        invariant Recs() == LeaseAll(before, ids, owner, now, duration)
        invariant |ids| < limit && ids == Select(ordered[..k], before, now)
        invariant seenPartitions == Open(before, ordered, k)
        invariant claimed == LeaseSnapshots(before, ids, owner, now, duration)
      {
        ClaimRound(before, ordered, k, now);
        var id := ordered[k].eventId;
        LeaseOneMore(before, ids, id, owner, now, duration);
        k := k + 1;
        var leased;
        seenPartitions, leased := Visit(id, seenPartitions, owner, duration, now);
        if leased {
          ids := ids + [id];
          claimed := claimed + [records[id].Snapshot()];
          assert Recs()[id] == records[id].Snapshot();
          if |claimed| == limit { break; }
        }
      }
      ClaimDone(before, ordered, k, limit, now);
    }

    /** The records' sort keys in `(occurred_at, event_id)` order. */
    method SortedRecords() returns (ordered: seq<Stamp>)
      requires Valid()
      ensures ordered == SortedStamps(Recs())
    {
      BeforeIsTotal();
      var stamps := set id | id in records :: records[id].data.Key();
      assert forall id :: id in records ==> Recs()[id].data == records[id].data;
      assert stamps == Stamps(Recs());
      ordered := Orders.Sort(stamps, Before);
      Orders.ListingUnique(ordered, SortedStamps(Recs()), stamps, Before);
    }

    /** The body of the claim loop: skip a finished record and all but the first of a partition, lease what is ready. */
    method Visit(id: string, seen: set<Partition>, owner: string, duration: int, now: int)
      returns (seenPartitions: set<Partition>, leased: bool)
      requires Valid() && id in records && duration > 0
      modifies Objects()
      ensures Valid() && records == old(records) && checkpoints == old(checkpoints)
      ensures var r := old(Recs())[id];
        && seenPartitions == seen + (if r.state.Completed? then {} else {r.data.PartitionKey()})
        && (leased <==> !r.state.Completed? && r.data.PartitionKey() !in seen && Eligible(r, now))
        && Recs() == if leased then old(Recs())[id := Leasing(r, owner, now, duration)] else old(Recs())
    {
      var record := records[id];
      ghost var before := Recs();
      assert record.Snapshot() == before[id];
      seenPartitions, leased := seen, false;
      if record.state == Completed { return; }
      var partition := record.data.PartitionKey();
      if partition in seen { return; }
      seenPartitions := seen + {partition};
      if record.state == Leased {
        if record.lease.value.expiresAt > now { return; }
        record.state := Retryable;
        record.lease := None;
      }
      if record.state != Pending && record.state != Retryable { return; }
      record.LeaseTo(owner, now, duration);
      leased := true;
      OnlyChanged(before, id);
      WellFormedUpdate(before, id, record.Snapshot());
    }

    method LeasedRecord(id: string, owner: string, now: int) returns (reply: Reply)
      requires Valid()
      ensures reply == LeaseCheck(View(), id, owner, now)
    {
      if id !in records { return NotFound; }
      var record := records[id];
      assert Recs()[id] == record.Snapshot();
      if record.state != Leased || record.lease.None? { return LeaseLost; }
      if record.lease.value.owner != owner { return LeaseLost; }
      if record.lease.value.expiresAt <= now { return LeaseLost; }
      reply := Done;
    }

    method Complete(id: string, owner: string, ack: Version, fingerprint: string, now: int) returns (reply: Reply)
      requires Valid()
      modifies this, Objects()
      ensures Valid() && records == old(records) && Objects() == old(Objects())
      ensures Answer(View(), reply) == OutboxModel.Complete(old(View()), id, owner, ack, fingerprint, now)
    {
      reply := LeasedRecord(id, owner, now);
      if reply != Done { return; }
      assert Recs()[id] == records[id].Snapshot();
      if ack != records[id].data.sourceVersion { return AckMismatch; }
      Acknowledge(id, fingerprint, now);
    }

    /** Finish one leased record and advance the checkpoint of its partition. */
    method Acknowledge(id: string, fingerprint: string, now: int)
      requires Valid() && id in records
      modifies this, Objects()
      ensures Valid() && records == old(records)
      ensures Recs() == old(Recs())[id := Finished(old(Recs())[id], fingerprint, now)]
      ensures checkpoints == old(checkpoints)[
        records[id].data.PartitionKey() := Advanced(old(View()), records[id].data, fingerprint, now)]
    {
      hide WellFormed;
      var record := records[id];
      ghost var before := Recs();
      assert before[id] == record.Snapshot();
      record.Finish(fingerprint, now);
      OnlyChanged(before, id);
      WellFormedUpdate(before, id, record.Snapshot());
      var partition := record.data.PartitionKey();
      var revision := if partition in checkpoints then checkpoints[partition].revision + 1 else 1;
      checkpoints := checkpoints[partition :=
        Checkpoint(partition, revision, Some(id), record.data.sourceVersion, Some(fingerprint), Some(now))];
    }

    method Release(id: string, owner: string, code: string, retryable: bool, now: int) returns (reply: Reply)
      requires Valid()
      modifies Objects()
      ensures Valid() && records == old(records) && Objects() == old(Objects())
      ensures Answer(View(), reply)
        == OutboxModel.Release(old(View()), poisonThreshold, id, owner, code, retryable, now)
    {
      hide WellFormed, CheckpointsWellFormed;
      ghost var before := View();
      reply := LeasedRecord(id, owner, now);
      if reply != Done { return; }
      var record := records[id];
      assert before.records[id] == record.Snapshot();
      record.failure := Some(Failure(code, now));
      record.lease := None;
      if !retryable || record.attemptCount >= poisonThreshold {
        record.state := Quarantined;
      } else {
        record.state := Retryable;
      }
      OnlyChanged(before.records, id);
      EntryWellFormed(before.records, id);
      WellFormedUpdate(before.records, id, record.Snapshot());
    }

    method OperatorRetry(id: string) returns (reply: Reply)
      requires Valid()
      modifies Objects()
      ensures Valid() && records == old(records) && Objects() == old(Objects())
      ensures Answer(View(), reply) == OutboxModel.OperatorRetry(old(View()), id)
    {
      ghost var before := View();
      if id !in records { return NotFound; }
      var record := records[id];
      assert before.records[id] == record.Snapshot();
      if record.state != Quarantined { return StateConflict; }
      record.state := Retryable;
      record.failure := None;
      reply := Done;
      OnlyChanged(before.records, id);
    }

    method CompareAndSetCheckpoint(checkpoint: Checkpoint, expected: int) returns (reply: Reply)
      requires Valid()
      modifies this`checkpoints
      ensures Valid()
      ensures Answer(View(), reply) == OutboxModel.SetCheckpoint(old(View()), checkpoint, expected)
    {
      var revision := if checkpoint.partition in checkpoints then checkpoints[checkpoint.partition].revision else 0;
      if revision != expected || checkpoint.revision != expected + 1 { return RevisionConflict; }
      checkpoints := checkpoints[checkpoint.partition := checkpoint];
      reply := Done;
    }

    /** What a valid store promises about its records, for callers that do not look inside. */
    lemma ValidRecords()
      requires Valid()
      ensures WellFormed(Recs()) && Recs().Keys == records.Keys
      ensures forall id :: id in records ==>
        Recs()[id].data == records[id].data && Recs()[id].state == records[id].state
    {
    }

    /** Writing one mutable record updates exactly its entry of the view. */
    lemma OnlyChanged(before: Records, id: string)
      requires id in records && before.Keys == records.Keys
      requires forall q :: q in records && q != id ==> records[q].Snapshot() == before[q]
      ensures Recs() == before[id := records[id].Snapshot()]
    {
    }
  }
}
