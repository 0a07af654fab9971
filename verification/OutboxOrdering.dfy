/** Per-partition order over whole runs, and the late append that breaks it. */
module OutboxOrdering {
  import opened Wrappers
  import opened OutboxModel
  import opened OutboxProtocol
  import opened VersionedTarget
  import OutboxClaims

  /** Work on a record starts only when every earlier record of its partition is finished. */
  ghost predicate Ordered(records: Records)
  {
    forall x, y :: x in records && y in records && Precedes(records, x, y) && !records[y].state.Pending? ==>
      records[x].state.Completed?
  }

  predicate Follows(later: OutboxData, data: OutboxData)
  {
    later.PartitionKey() == data.PartitionKey() && Before(data.Key(), later.Key())
  }

  /** The check a producer can make before it appends: nothing that has been started sorts after the new event. */
  ghost predicate Fits(records: Records, data: OutboxData)
  {
    data.eventId in records
    || forall q :: q in records && Follows(records[q].data, data) ==> records[q].state.Pending?
  }

  /** An append keeps the order exactly when it fits. */
  lemma AppendIsExact(cfg: Config, s: Sys, data: OutboxData)
    requires BaseInv(s) && Ordered(s.store.records)
    ensures Ordered(Next(cfg, s, Append(data)).store.records) <==> Fits(s.store.records, data)
  {
    var records, next := s.store.records, Next(cfg, s, Append(data)).store.records;
    if data.eventId !in records {
      assert next == records[data.eventId := Fresh(data)];
      BeforeIsTotal();
      if Fits(records, data) {
        forall x, y | x in next && y in next && Precedes(next, x, y) && !next[y].state.Pending?
          ensures next[x].state.Completed?
        {
          assert y in records;
          if x in records { assert Precedes(records, x, y); }
        }
      }
      if Ordered(next) {
        forall q | q in records && Follows(records[q].data, data)
          ensures records[q].state.Pending?
        {
          assert Precedes(next, data.eventId, q);
        }
      }
    }
  }

  lemma ClaimKeepsOrder(s: Sys, owner: string, limit: nat, duration: int, at: int)
    requires BaseInv(s) && Ordered(s.store.records)
    ensures Ordered(ClaimNext(s, owner, limit, duration, at).store.records)
  {
    hide ClaimIds, WithClaims;
    var records := s.store.records;
    var ids := ClaimIds(records, limit, at);
    ClaimedAreClaimable(records, limit, at);
    var next := LeaseAll(records, ids, owner, at, duration);
    forall x, y | x in next && y in next && Precedes(next, x, y) && !next[y].state.Pending?
      ensures next[x].state.Completed?
    {
      assert Precedes(records, x, y);
      if y in ids { assert IsHead(records, y); }
    }
  }

  /** Changing one started record into another keeps the order, whatever it becomes. */
  lemma UpdateKeepsOrder(records: Records, id: string, r: Record)
    requires Ordered(records) && id in records && !records[id].state.Pending? && r.data == records[id].data
    requires !records[id].state.Completed?
    ensures Ordered(records[id := r])
  {
    var next := records[id := r];
    forall x, y | x in next && y in next && Precedes(next, x, y) && !next[y].state.Pending?
      ensures next[x].state.Completed?
    {
      assert Precedes(records, x, y);
    }
  }

  lemma OtherStepsKeepOrder(cfg: Config, s: Sys, a: Action)
    requires BaseInv(s) && Ordered(s.store.records) && !a.Append?
    ensures Ordered(Next(cfg, s, a).store.records)
  {
    hide Before, ClaimIds, WithClaims, Project, Ordered;
    var next := Next(cfg, s, a);
    if next != s {
      match a
      case Claim(owner, limit, duration, at) => ClaimKeepsOrder(s, owner, limit, duration, at);
      case Complete(t, _, _, _) => UpdateKeepsOrder(s.store.records, t.eventId, next.store.records[t.eventId]);
      case Release(t, _, _, _) => UpdateKeepsOrder(s.store.records, t.eventId, next.store.records[t.eventId]);
      case OperatorRetry(id) => UpdateKeepsOrder(s.store.records, id, next.store.records[id]);
      case _ =>
    }
  }

  /** Every append of the run fits when it is made. */
  ghost predicate AppendsFit(cfg: Config, actions: seq<Action>)
  {
    actions == []
    || (var init, last := actions[..|actions| - 1], actions[|actions| - 1];
        AppendsFit(cfg, init) && (last.Append? ==> Fits(Run(cfg, init).store.records, last.data)))
  }

  /** The store is in order after every step of the run. */
  ghost predicate AlwaysOrdered(cfg: Config, actions: seq<Action>)
  {
    Ordered(Run(cfg, actions).store.records) && (actions == [] || AlwaysOrdered(cfg, actions[..|actions| - 1]))
  }

  /** A run is in order at every moment exactly when every append of it fits when it is made. */
  lemma {:induction false} OrderedExactly(cfg: Config, actions: seq<Action>)
    ensures AlwaysOrdered(cfg, actions) <==> AppendsFit(cfg, actions)
  {
    if actions != [] {
      var init, last := actions[..|actions| - 1], actions[|actions| - 1];
      OrderedExactly(cfg, init);
      var s := Run(cfg, init);
      BaseRun(cfg, init);
      if Ordered(s.store.records) {
        if last.Append? { AppendIsExact(cfg, s, last.data); } else { OtherStepsKeepOrder(cfg, s, last); }
      }
    }
  }

  /** In an ordered store a partition has at most one lease, and its finished records come first. */
  lemma OneLeasePerPartition(records: Records, x: string, y: string)
    requires WellFormed(records) && Ordered(records) && x in records && y in records
    requires x != y && SamePartition(records, x, y)
    ensures !(records[x].state.Leased? && records[y].state.Leased?)
    ensures records[y].state.Completed? && !records[x].state.Completed? ==> Precedes(records, y, x)
  {
    BeforeIsTotal();
    assert Before(records[x].data.Key(), records[y].data.Key()) || Before(records[y].data.Key(), records[x].data.Key());
  }

  // ------------------------------------------------- completions come in order

  ghost predicate CompletionInv(s: Sys)
  {
    && (forall d :: d in s.completions ==>
          && d.eventId in s.store.records && s.store.records[d.eventId].state.Completed?
          && s.store.records[d.eventId].data == d)
    && (forall id :: id in s.store.records && s.store.records[id].state.Completed? ==>
          s.store.records[id].data in s.completions)
    && (forall i, j :: 0 <= i < j < |s.completions| ==> s.completions[i].eventId != s.completions[j].eventId)
  }

  /** Only an accepted completion finishes a record, and it logs the record it finishes. */
  lemma FinishStep(cfg: Config, s: Sys, a: Action)
    requires BaseInv(s)
    ensures var n := Next(cfg, s, a);
      if a.Complete? && n != s then
        && a.attempt.eventId in s.store.records && !s.store.records[a.attempt.eventId].state.Completed?
        && n.completions == s.completions + [s.store.records[a.attempt.eventId].data]
        && (forall id :: id in n.store.records && n.store.records[id].state.Completed? ==>
              id == a.attempt.eventId || (id in s.store.records && s.store.records[id].state.Completed?))
        && a.attempt.eventId in n.store.records && n.store.records[a.attempt.eventId].state.Completed?
      else
        && n.completions == s.completions
        && (forall id :: id in n.store.records && n.store.records[id].state.Completed? ==>
              id in s.store.records && s.store.records[id].state.Completed?)
  {
    hide ClaimIds, WithClaims, Project;
  }

  lemma CompletionStep(cfg: Config, s: Sys, a: Action)
    requires BaseInv(s) && CompletionInv(s)
    ensures CompletionInv(Next(cfg, s, a))
  {
    hide Next;
    var n := Next(cfg, s, a);
    StepEvolves(cfg, s, a);
    FinishStep(cfg, s, a);
    assert forall i :: 0 <= i < |s.completions| ==> s.completions[i] in s.completions;
    forall id | id in n.store.records && n.store.records[id].state.Completed?
      ensures n.store.records[id].data in n.completions
    {
      if id in s.store.records && s.store.records[id].state.Completed? {
        assert s.store.records[id].data in s.completions;
      }
    }
  }

  /** Every event is completed at most once in a run, and the finished records are exactly the completed ones. */
  lemma {:induction false} CompletedOnce(cfg: Config, actions: seq<Action>)
    ensures CompletionInv(Run(cfg, actions))
  {
    if actions != [] {
      var init := actions[..|actions| - 1];
      CompletedOnce(cfg, init);
      BaseRun(cfg, init);
      CompletionStep(cfg, Run(cfg, init), actions[|actions| - 1]);
    }
  }

  ghost predicate InOrder(completions: seq<OutboxData>)
  {
    forall i, j :: 0 <= i < j < |completions| && completions[i].PartitionKey() == completions[j].PartitionKey() ==>
      Before(completions[i].Key(), completions[j].Key())
  }

  /** When every append fits, each partition is completed in `(occurred_at, event_id)` order. */
  lemma {:induction false} CompletionsInOrder(cfg: Config, actions: seq<Action>)
    requires AppendsFit(cfg, actions)
    ensures InOrder(Run(cfg, actions).completions)
  {
    hide Next, Before;
    if actions != [] {
      var init, last := actions[..|actions| - 1], actions[|actions| - 1];
      CompletionsInOrder(cfg, init);
      OrderedExactly(cfg, init);
      var s := Run(cfg, init);
      assert Ordered(s.store.records);
      BaseRun(cfg, init);
      CompletedOnce(cfg, init);
      var n := Next(cfg, s, last);
      FinishStep(cfg, s, last);
      if last.Complete? && n != s {
        var d := s.store.records[last.attempt.eventId].data;
        forall i | 0 <= i < |s.completions| && s.completions[i].PartitionKey() == d.PartitionKey()
          ensures Before(s.completions[i].Key(), d.Key())
        {
          assert s.completions[i] in s.completions;
          OneLeasePerPartition(s.store.records, d.eventId, s.completions[i].eventId);
        }
      }
    }
  }

  // ------------------------------------------------- the late append

  lemma ClaimOnly(cfg: Config, s: Sys, owner: string, id: string, at: int)
    requires WellFormed(s.store.records) && Claimable(s.store.records, id, at) && owner != ""
    requires forall q :: Claimable(s.store.records, q, at) ==> q == id
    ensures var n := Next(cfg, s, Claim(owner, 1, 10, at));
      && n.store == s.store.(records := s.store.records[id := Leasing(s.store.records[id], owner, at, 10)])
      && n.held == s.held + {Attempt(owner, id)} && n.completions == s.completions
  {
    hide OutboxClaims.FirstOfSource, OutboxClaims.Chronological, OutboxClaims.InOrder, OutboxClaims.OnePerPartition,
      WithClaims, IsHead, ClaimIds, Before;
    OutboxClaims.ClaimContract(s.store.records, 1, at);
    var ids := ClaimIds(s.store.records, 1, at);
    assert |ids| == 1 ==> ids[0] in ids;
    assert ids == [id];
  }

  /** The schedule: `late` is claimed, `early` is appended and claimed behind it, and both are delivered. */
  predicate LateSchedule(actions: seq<Action>, late: OutboxData, early: OutboxData)
  {
    && |actions| == 8
    && actions[0] == Append(late) && actions[1] == Claim("w1", 1, 10, 0)
    && actions[2] == Append(early) && actions[3] == Claim("w2", 1, 10, 0)
    && Delivers(actions, 4, "w1", late)
    && Delivers(actions, 6, "w2", early)
  }

  predicate Delivers(actions: seq<Action>, k: nat, owner: string, data: OutboxData)
    requires k + 2 <= |actions|
  {
    var t := Attempt(owner, data.eventId);
    actions[k] == Write(t) && actions[k + 1] == Complete(t, data.sourceVersion, "f", 1)
  }

  /** The store holds exactly these two records and no checkpoint yet. */
  predicate Holds(s: Sys, first: Record, second: Record)
  {
    && s.store.records.Keys == {first.data.eventId, second.data.eventId}
    && s.store.records[first.data.eventId] == first && s.store.records[second.data.eventId] == second
    && s.store.checkpoints == map[] && s.completions == []
  }

  /** An append that sorts before a leased record of its partition: two live leases, and completion out of order. */
  lemma LateAppendBreaksOrder(cfg: Config, actions: seq<Action>, late: OutboxData, early: OutboxData)
    requires late.eventId != early.eventId && Follows(late, early)
    requires Project(cfg.spec, late).Some? && Project(cfg.spec, early).Some?
    requires LateSchedule(actions, late, early)
    ensures Holds(Run(cfg, actions[..4]), Leasing(Fresh(late), "w1", 0, 10), Leasing(Fresh(early), "w2", 0, 10))
    ensures Run(cfg, actions).completions == [late, early] && !InOrder([late, early])
    ensures var checkpoints := Run(cfg, actions).store.checkpoints;
      late.PartitionKey() in checkpoints && checkpoints[late.PartitionKey()].eventId == Some(early.eventId)
  {
    hide Next, Run, Project, Before, InOrder;
    FirstClaim(cfg, actions, late, early);
    SecondClaim(cfg, actions, late, early);
    Deliver(cfg, actions, 4, "w1", late);
    Deliver(cfg, actions, 6, "w2", early);
    assert actions[..8] == actions;
    NotInOrder(late, early);
  }

  lemma NotInOrder(late: OutboxData, early: OutboxData)
    requires Follows(late, early)
    ensures !InOrder([late, early])
  {
    BeforeIsTotal();
    var q := [late, early];
    assert q[0] == late && q[1] == early;
  }

  lemma FirstClaim(cfg: Config, actions: seq<Action>, late: OutboxData, early: OutboxData)
    requires late.eventId != early.eventId && LateSchedule(actions, late, early)
    ensures var s := Run(cfg, actions[..3]);
      Holds(s, Leasing(Fresh(late), "w1", 0, 10), Fresh(early)) && Attempt("w1", late.eventId) in s.held
  {
    hide Next, Run, ClaimIds;
    StartsEmpty(cfg, actions);
    RunStep(cfg, actions, 0);
    NewRecord(cfg, EMPTY, late);
    ClaimAlone(cfg, Run(cfg, actions[..1]), late);
    RunStep(cfg, actions, 1);
    RunStep(cfg, actions, 2);
    NewRecord(cfg, Run(cfg, actions[..2]), early);
  }

  lemma StartsEmpty(cfg: Config, actions: seq<Action>)
    ensures Run(cfg, actions[..0]) == EMPTY
  {
  }

  lemma NewRecord(cfg: Config, s: Sys, data: OutboxData)
    requires data.eventId !in s.store.records
    ensures var n := Next(cfg, s, Append(data));
      && n.store == s.store.(records := s.store.records[data.eventId := Fresh(data)])
      && n.held == s.held && n.completions == s.completions
  {
  }

  lemma ClaimAlone(cfg: Config, s: Sys, data: OutboxData)
    requires s.store == Store(map[data.eventId := Fresh(data)], map[])
    ensures var n := Next(cfg, s, Claim("w1", 1, 10, 0));
      && n.store == Store(map[data.eventId := Leasing(Fresh(data), "w1", 0, 10)], map[])
      && Attempt("w1", data.eventId) in n.held && n.completions == s.completions
  {
    BeforeIsTotal();
    ClaimOnly(cfg, s, "w1", data.eventId, 0);
  }

  lemma TwoRecords(records: Records, late: OutboxData, early: OutboxData)
    requires late.eventId != early.eventId && Follows(late, early)
    requires records == map[late.eventId := Leasing(Fresh(late), "w1", 0, 10), early.eventId := Fresh(early)]
    ensures WellFormed(records)
    ensures forall q :: Claimable(records, q, 0) <==> q == early.eventId
  {
    BeforeIsTotal();
    assert Precedes(records, early.eventId, late.eventId);
  }

  lemma SecondClaim(cfg: Config, actions: seq<Action>, late: OutboxData, early: OutboxData)
    requires late.eventId != early.eventId && Follows(late, early) && LateSchedule(actions, late, early)
    requires var s := Run(cfg, actions[..3]);
      Holds(s, Leasing(Fresh(late), "w1", 0, 10), Fresh(early)) && Attempt("w1", late.eventId) in s.held
    ensures var s := Run(cfg, actions[..4]);
      && Holds(s, Leasing(Fresh(late), "w1", 0, 10), Leasing(Fresh(early), "w2", 0, 10))
      && Attempt("w1", late.eventId) in s.held && Attempt("w2", early.eventId) in s.held
  {
    hide Next, Run, Project, Before;
    var s := Run(cfg, actions[..3]);
    TwoRecords(s.store.records, late, early);
    ClaimOnly(cfg, s, "w2", early.eventId, 0);
    RunStep(cfg, actions, 3);
  }

  lemma {:induction false} RunStep(cfg: Config, actions: seq<Action>, k: nat)
    requires k < |actions|
    ensures Run(cfg, actions[..k + 1]) == Next(cfg, Run(cfg, actions[..k]), actions[k])
  {
    assert actions[..k + 1][..k] == actions[..k];
  }

  lemma Deliver(cfg: Config, actions: seq<Action>, k: nat, owner: string, data: OutboxData)
    requires k + 2 <= |actions| && Project(cfg.spec, data).Some?
    requires Delivers(actions, k, owner, data) && Attempt(owner, data.eventId) in Run(cfg, actions[..k]).held
    requires var s := Run(cfg, actions[..k]).store;
      && data.eventId in s.records && s.records[data.eventId] == Leasing(Fresh(data), owner, 0, 10)
    ensures var s := Run(cfg, actions[..k]);
      var n := Run(cfg, actions[..k + 2]);
      && n.completions == s.completions + [data] && n.held == s.held
      && n.store.records == s.store.records[data.eventId := Finished(s.store.records[data.eventId], "f", 1)]
      && data.PartitionKey() in n.store.checkpoints
      && n.store.checkpoints[data.PartitionKey()].eventId == Some(data.eventId)
  {
    RunStep(cfg, actions, k);
    RunStep(cfg, actions, k + 1);
  }
}
