/** What one `atomic_claim` call hands out, and what it leaves behind. */
module OutboxClaims {
  import opened Wrappers
  import opened OutboxModel
  import Orders

  ghost predicate InOrder(records: Records, ids: seq<string>)
    requires forall id :: id in ids ==> id in records
  {
    forall i, j :: 0 <= i < j < |ids| ==> Before(records[ids[i]].data.Key(), records[ids[j]].data.Key())
  }

  /** A selection keeps the listing's order and drops nothing that could be claimed. */
  lemma {:induction false} SelectionIsExact(records: Records, order: seq<Stamp>, at: int)
    requires WellFormed(records) && Orders.Sorted(order, Before)
    requires forall s :: s in order ==> s in Stamps(records)
    ensures InOrder(records, Select(order, records, at))
    ensures forall s :: s in order && Claimable(records, s.eventId, at) ==> s.eventId in Select(order, records, at)
  {
    if order != [] {
      var init, last := order[..|order| - 1], order[|order| - 1];
      SelectionIsExact(records, init, at);
      assert last in Stamps(records) && records[last.eventId].data.Key() == last;
      assert order == init + [last];
      forall id | id in Select(init, records, at)
        ensures Before(records[id].data.Key(), last)
      {
        var k :| 0 <= k < |init| && init[k].eventId == id;
        assert order[k] in Stamps(records) && records[id].data.Key() == order[k];
      }
    }
  }

  lemma ClaimOrderIsExact(records: Records, at: int)
    requires WellFormed(records)
    ensures forall id :: id in ClaimOrder(records, at) <==> Claimable(records, id, at)
    ensures InOrder(records, ClaimOrder(records, at))
  {
    var order := SortedStamps(records);
    SelectionIsExact(records, order, at);
    forall id | Claimable(records, id, at)
      ensures id in ClaimOrder(records, at)
    {
      assert records[id].data.Key() in Stamps(records);
    }
  }

  /** A partition has one head. */
  lemma HeadsDiffer(records: Records, x: string, y: string)
    requires WellFormed(records) && x in records && y in records && x != y
    requires IsHead(records, x) && IsHead(records, y)
    ensures !SamePartition(records, x, y)
  {
    BeforeIsTotal();
    assert Before(records[x].data.Key(), records[y].data.Key()) || Before(records[y].data.Key(), records[x].data.Key());
  }

  ghost predicate OnePerPartition(records: Records, ids: seq<string>)
    requires forall id :: id in ids ==> id in records
  {
    forall i, j :: 0 <= i < j < |ids| ==> !SamePartition(records, ids[i], ids[j])
  }

  /** Claimed events come in order of time, then of event id. */
  ghost predicate Chronological(records: Records, ids: seq<string>)
    requires forall id :: id in ids ==> id in records
  {
    forall i, j :: 0 <= i < j < |ids| ==> Comes(records[ids[i]].data, records[ids[j]].data)
  }

  /** The oldest unfinished event of its source, waiting or under a lease that has run out. */
  ghost predicate FirstOfSource(records: Records, id: string, at: int)
  {
    && id in records && !records[id].state.Completed? && !records[id].state.Quarantined?
    && (records[id].state.Leased? ==> records[id].lease.Some? && records[id].lease.value.expiresAt <= at)
    && forall q :: q in records && q != id && OfSource(records[q], records[id].data) ==>
         Comes(records[id].data, records[q].data)
  }

  /** An unfinished event of this source. */
  predicate OfSource(r: Record, data: OutboxData)
  {
    SameSource(r.data, data) && !r.state.Completed?
  }

  /** What can be claimed, in terms of the events' own fields. */
  lemma ClaimableExactly(records: Records, id: string, at: int)
    requires WellFormed(records)
    ensures Claimable(records, id, at) <==> FirstOfSource(records, id, at)
  {
    hide TextOrder.Less, TextOrder.Precedes;
    BeforeIsTotal();
    if id in records {
      forall q | q in records
        ensures Before(records[q].data.Key(), records[id].data.Key()) <==> Comes(records[q].data, records[id].data)
        ensures Before(records[id].data.Key(), records[q].data.Key()) <==> Comes(records[id].data, records[q].data)
      {
        KeysExactly(records[q].data, records[id].data);
        KeysExactly(records[id].data, records[q].data);
      }
    }
  }

  /** The contract of a claim: ordered, bounded, one per source, oldest first, and nothing ready is passed over. */
  lemma ClaimContract(records: Records, limit: nat, at: int)
    requires WellFormed(records)
    ensures var ids := ClaimIds(records, limit, at);
      && |ids| <= limit
      && (forall id :: id in ids ==> Claimable(records, id, at) && FirstOfSource(records, id, at))
      && InOrder(records, ids) && Chronological(records, ids)
      && OnePerPartition(records, ids)
      && (forall id :: Claimable(records, id, at) && id !in ids ==>
            |ids| == limit
            && forall c :: c in ids ==> Before(records[c].data.Key(), records[id].data.Key()))
  {
    ClaimOrderIsExact(records, at);
    var all, ids := ClaimOrder(records, at), ClaimIds(records, limit, at);
    assert ids <= all;
    assert forall k :: 0 <= k < |ids| ==> ids[k] == all[k] && ids[k] in all && all[k] in ids;
    BeforeIsTotal();
    forall i, j | 0 <= i < j < |ids|
      ensures !SamePartition(records, ids[i], ids[j])
    {
      assert ids[i] in all && ids[j] in all;
      HeadsDiffer(records, ids[i], ids[j]);
    }
    forall id | id in ids ensures FirstOfSource(records, id, at) {
      ClaimableExactly(records, id, at);
    }
    forall i, j | 0 <= i < j < |ids| ensures Comes(records[ids[i]].data, records[ids[j]].data) {
      KeysExactly(records[ids[i]].data, records[ids[j]].data);
    }
    forall id | Claimable(records, id, at) && id !in ids
      ensures |ids| == limit && forall c :: c in ids ==> Before(records[c].data.Key(), records[id].data.Key())
    {
      assert id in all;
      var j :| 0 <= j < |all| && all[j] == id;
      forall c | c in ids
        ensures Before(records[c].data.Key(), records[id].data.Key())
      {
        var i :| 0 <= i < |ids| && ids[i] == c;
        assert all[i] == c;
      }
    }
  }

  /** Every partition with unfinished work has a head, at or before any incomplete record of it. */
  lemma HeadExists(records: Records, id: string) returns (head: string)
    requires WellFormed(records) && id in records && !records[id].state.Completed?
    ensures head in records && IsHead(records, head) && SamePartition(records, head, id)
    decreases set q | q in records && Precedes(records, q, id)
  {
    BeforeIsTotal();
    if IsHead(records, id) {
      head := id;
    } else {
      var q :| q in records && Precedes(records, q, id) && !records[q].state.Completed?;
      var below := set p | p in records && Precedes(records, p, q);
      var above := set p | p in records && Precedes(records, p, id);
      assert below <= above && q in above && q !in below;
      head := HeadExists(records, q);
    }
  }

  ghost predicate Blocked(r: Record, at: int)
  {
    r.state.Quarantined? || (r.state.Leased? && r.lease.Some? && r.lease.value.expiresAt > at)
  }

  /**
   * A claim that returns fewer than `limit` records leaves every other partition head quarantined or under a live
   * lease.
   */
  lemma ShortClaimMeansBlocked(records: Records, limit: nat, at: int, head: string)
    requires WellFormed(records) && |ClaimIds(records, limit, at)| < limit
    requires head in records && IsHead(records, head) && head !in ClaimIds(records, limit, at)
    ensures Blocked(records[head], at)
  {
    ClaimContract(records, limit, at);
    assert !Claimable(records, head, at);
    assert RecordWellFormed(head, records[head]);
  }
}
