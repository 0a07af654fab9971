/** Outbox records, leases and checkpoints, and what each store operation does to them as values. */
module OutboxModel {
  import opened Wrappers
  import TextOrder
  import Orders

  datatype Version = NoVersion | IntVersion(number: int) | TextVersion(text: string)

  /** The `deleted` entry of a payload: absent, a boolean, or something else. */
  datatype DeletedField = Missing | Flag(value: bool) | NotBoolean

  /** A frozen payload; `body` is its canonical JSON text, which determines the value. */
  datatype Document = Document(deleted: DeletedField, body: string)

  datatype Content = Payload(document: Document) | Reference(reference: string)

  /** The ordering key of one source identity; the source hashes these three fields injectively. */
  datatype Partition = Partition(catalog: string, resource: string, identity: string)

  datatype OutboxData = OutboxData(
    eventId: string, occurredAt: int,
    sourceCatalog: string, sourceResource: string, sourceSchema: string, sourceIdentity: string,
    sourceVersion: Version, mutationKind: string, content: Content, targetLabels: seq<string>,
    operationContext: map<string, string>)
  {
    function PartitionKey(): Partition { Partition(sourceCatalog, sourceResource, sourceIdentity) }

    function Key(): Stamp { Stamp(occurredAt, eventId) }
  }

  datatype State = Pending | Leased | Completed | Retryable | Quarantined

  datatype Lease = Lease(owner: string, acquiredAt: int, expiresAt: int, attempt: nat)

  datatype Failure = Failure(code: string, failedAt: int)

  datatype Record = Record(
    data: OutboxData, state: State, attemptCount: nat, lease: Option<Lease>,
    failure: Option<Failure>, targetFingerprint: Option<string>, completedAt: Option<int>)

  datatype Checkpoint = Checkpoint(
    partition: Partition, revision: nat, eventId: Option<string>, sourceVersion: Version,
    targetFingerprint: Option<string>, advancedAt: Option<int>)

  datatype Store = Store(records: map<string, Record>, checkpoints: map<Partition, Checkpoint>)

  datatype Reply = Done | Invalid | IdempotencyConflict | NotFound | LeaseLost | AckMismatch | StateConflict
                 | RevisionConflict

  /** The sort key of the claim loop. */
  datatype Stamp = Stamp(occurredAt: int, eventId: string)

  predicate Before(a: Stamp, b: Stamp)
  {
    a.occurredAt < b.occurredAt || (a.occurredAt == b.occurredAt && TextOrder.Less(a.eventId, b.eventId))
  }

  lemma BeforeIsTotal()
    ensures Orders.StrictTotal(Before)
  {
    TextOrder.StrictTotalOrder();
    forall a: Stamp, b: Stamp | a != b ensures Before(a, b) || Before(b, a) {
      assert a.eventId != b.eventId || a.occurredAt != b.occurredAt;
      if a.occurredAt == b.occurredAt { TextOrder.Total(a.eventId, b.eventId); }
    }
    forall a: Stamp ensures !Before(a, a) { TextOrder.Irreflexive(a.eventId); }
    forall a: Stamp, b: Stamp, c: Stamp | Before(a, b) && Before(b, c) ensures Before(a, c) {
      if a.occurredAt == b.occurredAt == c.occurredAt {
        TextOrder.Transitive(a.eventId, b.eventId, c.eventId);
      }
    }
  }

  /** The events of one source: same catalog, same resource, same identity. */
  predicate SameSource(d: OutboxData, e: OutboxData)
  {
    d.sourceCatalog == e.sourceCatalog && d.sourceResource == e.sourceResource && d.sourceIdentity == e.sourceIdentity
  }

  /** The order of events: by time, at one time by event id. */
  ghost predicate Comes(d: OutboxData, e: OutboxData)
  {
    d.occurredAt < e.occurredAt || (d.occurredAt == e.occurredAt && TextOrder.Precedes(d.eventId, e.eventId))
  }

  /** The sort key puts events in this order, and the partition key tells exactly their sources apart. */
  lemma KeysExactly(d: OutboxData, e: OutboxData)
    ensures Before(d.Key(), e.Key()) <==> Comes(d, e)
    ensures d.PartitionKey() == e.PartitionKey() <==> SameSource(d, e)
  {
    TextOrder.LessExactly(d.eventId, e.eventId);
  }

  type Records = map<string, Record>

  predicate RecordWellFormed(id: string, r: Record)
  {
    && r.data.eventId == id
    && (r.state.Leased? <==> r.lease.Some?)
    && (r.lease.Some? ==> r.lease.value.attempt == r.attemptCount && r.lease.value.acquiredAt < r.lease.value.expiresAt)
    && (r.state.Completed? ==> r.targetFingerprint.Some? && r.completedAt.Some? && r.failure.None?)
  }

  ghost predicate WellFormed(records: Records)
  {
    forall id :: id in records ==> RecordWellFormed(id, records[id])
  }

  ghost predicate CheckpointsWellFormed(checkpoints: map<Partition, Checkpoint>)
  {
    forall p :: p in checkpoints ==> checkpoints[p].partition == p
  }

  ghost predicate SamePartition(records: Records, x: string, y: string)
    requires x in records && y in records
  {
    SameSource(records[x].data, records[y].data)
  }

  ghost predicate Precedes(records: Records, x: string, y: string)
    requires x in records && y in records
  {
    SamePartition(records, x, y) && Before(records[x].data.Key(), records[y].data.Key())
  }

  /** The first incomplete record of its partition. */
  ghost predicate IsHead(records: Records, id: string)
    requires id in records
  {
    !records[id].state.Completed?
    && forall q :: q in records && Precedes(records, q, id) ==> records[q].state.Completed?
  }

  /** Ready to be leased: waiting, or leased under a lease that has run out. */
  predicate Eligible(r: Record, at: int)
  {
    r.state.Pending? || r.state.Retryable? || (r.state.Leased? && r.lease.Some? && r.lease.value.expiresAt <= at)
  }

  ghost predicate Claimable(records: Records, id: string, at: int)
  {
    id in records && IsHead(records, id) && Eligible(records[id], at)
  }

  // ---------------------------------------------------------------- claim

  ghost function Stamps(records: Records): set<Stamp>
  {
    set id | id in records :: records[id].data.Key()
  }

  ghost function Select(order: seq<Stamp>, records: Records, at: int): (r: seq<string>)
    ensures forall id :: id in r ==> Claimable(records, id, at)
    ensures forall id :: id in r ==> exists k :: 0 <= k < |order| && order[k].eventId == id
    ensures |r| <= |order|
  {
    if order == [] then []
    else
      var init, last := Select(order[..|order| - 1], records, at), order[|order| - 1].eventId;
      if Claimable(records, last, at) then init + [last] else init
  }

  ghost function SortedStamps(records: Records): (r: seq<Stamp>)
    ensures Orders.Sorted(r, Before) && Orders.Lists(r, Stamps(records))
  {
    BeforeIsTotal();
    Orders.Listing(Stamps(records), Before)
  }

  /** Every head that can be leased at this instant, in `(occurred_at, event_id)` order. */
  ghost function ClaimOrder(records: Records, at: int): (r: seq<string>)
    ensures forall id :: id in r ==> id in records
  {
    Select(SortedStamps(records), records, at)
  }

  ghost function ClaimIds(records: Records, limit: nat, at: int): (r: seq<string>)
    ensures |r| <= limit && forall id :: id in r ==> id in records
  {
    var all := ClaimOrder(records, at);
    if |all| <= limit then all else all[..limit]
  }

  lemma ClaimedAreClaimable(records: Records, limit: nat, at: int)
    ensures forall id :: id in ClaimIds(records, limit, at) ==> Claimable(records, id, at)
  {
  }

  function Leasing(r: Record, owner: string, at: int, duration: int): Record
  {
    r.(state := Leased, attemptCount := r.attemptCount + 1, failure := None,
       lease := Some(Lease(owner, at, at + duration, r.attemptCount + 1)))
  }

  function LeaseAll(records: Records, ids: seq<string>, owner: string, at: int, duration: int): Records
  {
    map id | id in records :: if id in ids then Leasing(records[id], owner, at, duration) else records[id]
  }

  // ------------------------------------------------- the other operations

  datatype Answer = Answer(store: Store, reply: Reply)

  function Fresh(data: OutboxData): Record
  {
    Record(data, Pending, 0, None, None, None, None)
  }

  function Append(s: Store, data: OutboxData): Answer
  {
    if data.eventId !in s.records then Answer(s.(records := s.records[data.eventId := Fresh(data)]), Done)
    else if s.records[data.eventId].data != data then Answer(s, IdempotencyConflict)
    else Answer(s, Done)
  }

  /** The checks shared by completion and release. */
  function LeaseCheck(s: Store, id: string, owner: string, at: int): Reply
  {
    if id !in s.records then NotFound
    else
      var r := s.records[id];
      if !r.state.Leased? || r.lease.None? then LeaseLost
      else if r.lease.value.owner != owner then LeaseLost
      else if r.lease.value.expiresAt <= at then LeaseLost
      else Done
  }

  function Finished(r: Record, fingerprint: string, at: int): Record
  {
    r.(state := Completed, lease := None, failure := None,
       targetFingerprint := Some(fingerprint), completedAt := Some(at))
  }

  function Revision(s: Store, p: Partition): nat
  {
    if p in s.checkpoints then s.checkpoints[p].revision else 0
  }

  function Advanced(s: Store, data: OutboxData, fingerprint: string, at: int): Checkpoint
  {
    Checkpoint(data.PartitionKey(), Revision(s, data.PartitionKey()) + 1, Some(data.eventId),
               data.sourceVersion, Some(fingerprint), Some(at))
  }

  function Complete(s: Store, id: string, owner: string, ack: Version, fingerprint: string, at: int): Answer
  {
    var reply := LeaseCheck(s, id, owner, at);
    if !reply.Done? then Answer(s, reply)
    else
      var r := s.records[id];
      if ack != r.data.sourceVersion then Answer(s, AckMismatch)
      else
        Answer(Store(s.records[id := Finished(r, fingerprint, at)],
                     s.checkpoints[r.data.PartitionKey() := Advanced(s, r.data, fingerprint, at)]),
               Done)
  }

  function Released(r: Record, threshold: nat, failure: Failure, retryable: bool): Record
  {
    r.(failure := Some(failure), lease := None,
       state := if !retryable || r.attemptCount >= threshold then Quarantined else Retryable)
  }

  function Release(s: Store, threshold: nat, id: string, owner: string, code: string, retryable: bool, at: int): Answer
  {
    var reply := LeaseCheck(s, id, owner, at);
    if !reply.Done? then Answer(s, reply)
    else Answer(s.(records := s.records[id := Released(s.records[id], threshold, Failure(code, at), retryable)]), Done)
  }

  function OperatorRetry(s: Store, id: string): Answer
  {
    if id !in s.records then Answer(s, NotFound)
    else if !s.records[id].state.Quarantined? then Answer(s, StateConflict)
    else Answer(s.(records := s.records[id := s.records[id].(state := Retryable, failure := None)]), Done)
  }

  function SetCheckpoint(s: Store, checkpoint: Checkpoint, expected: int): Answer
  {
    if Revision(s, checkpoint.partition) != expected || checkpoint.revision != expected + 1
    then Answer(s, RevisionConflict)
    else Answer(s.(checkpoints := s.checkpoints[checkpoint.partition := checkpoint]), Done)
  }
}
