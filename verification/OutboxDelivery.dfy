/** Exactly-once completion, lease fencing and attempt accounting, over every run of the protocol. */
module OutboxDelivery {
  import opened Wrappers
  import opened Identifiers
  import opened OutboxModel
  import opened OutboxProtocol
  import OutboxClaims
  import OutboxOrdering

  // ---------------------------------------------------------- checkpoints

  /** The completions of one partition, oldest first. */
  function PartitionLog(completions: seq<OutboxData>, p: Partition): (log: seq<OutboxData>)
    ensures forall d :: d in log <==> d in completions && d.PartitionKey() == p
  {
    if completions == [] then []
    else
      var init, last := PartitionLog(completions[..|completions| - 1], p), completions[|completions| - 1];
      assert completions == completions[..|completions| - 1] + [last];
      if last.PartitionKey() == p then init + [last] else init
  }

  ghost predicate CheckpointOf(s: Sys, p: Partition)
  {
    var log := PartitionLog(s.completions, p);
    if log == [] then p !in s.store.checkpoints
    else
      var last := log[|log| - 1];
      && p in s.store.checkpoints && last.eventId in s.store.records
      && s.store.checkpoints[p].partition == p
      && s.store.checkpoints[p].revision == |log|
      && s.store.checkpoints[p].eventId == Some(last.eventId)
      && s.store.checkpoints[p].sourceVersion == last.sourceVersion
      && s.store.checkpoints[p].targetFingerprint == s.store.records[last.eventId].targetFingerprint
  }

  ghost predicate CheckpointInv(s: Sys)
  {
    forall p :: CheckpointOf(s, p)
  }

  /** What an accepted completion does to the store. */
  lemma CompleteEffect(cfg: Config, s: Sys, a: Action)
    requires a.Complete? && Next(cfg, s, a) != s
    ensures a.attempt.eventId in s.store.records
    ensures var n := Next(cfg, s, a);
      var r := s.store.records[a.attempt.eventId];
      && n.completions == s.completions + [r.data]
      && n.store.records == s.store.records[a.attempt.eventId := Finished(r, a.fingerprint, a.at)]
      && n.store.checkpoints
         == s.store.checkpoints[r.data.PartitionKey() := Advanced(s.store, r.data, a.fingerprint, a.at)]
  {
  }

  lemma CompleteAdvances(cfg: Config, s: Sys, a: Action, p: Partition)
    requires WellFormed(s.store.records) && CheckpointOf(s, p) && a.Complete? && Next(cfg, s, a) != s
    requires forall d :: d in s.completions ==>
      d.eventId in s.store.records && s.store.records[d.eventId].state.Completed?
    requires a.attempt.eventId in s.store.records && !s.store.records[a.attempt.eventId].state.Completed?
    ensures CheckpointOf(Next(cfg, s, a), p)
  {
    hide Next, Finished;
    CompleteEffect(cfg, s, a);
    FinishedKeeps(s.store.records[a.attempt.eventId], a.fingerprint, a.at);
    var n := Next(cfg, s, a);
    var log := PartitionLog(s.completions, p);
    assert forall d :: d in log ==> d in s.completions;
    var d := s.store.records[a.attempt.eventId].data;
    assert n.completions[..|s.completions|] == s.completions;
    if d.PartitionKey() == p {
      assert PartitionLog(n.completions, p) == log + [d];
    } else {
      assert PartitionLog(n.completions, p) == log;
    }
  }

  lemma FinishedKeeps(r: Record, fingerprint: string, at: int)
    ensures Finished(r, fingerprint, at).targetFingerprint == Some(fingerprint)
    ensures Finished(r, fingerprint, at).data == r.data
  {
  }

  lemma OthersComplete(cfg: Config, s: Sys, a: Action)
    requires !a.Complete? && !a.SetCheckpoint?
    ensures Next(cfg, s, a).completions == s.completions && Next(cfg, s, a).store.checkpoints == s.store.checkpoints
  {
    hide WithClaims, ClaimIds;
  }

  lemma OthersKeepCheckpoint(cfg: Config, s: Sys, a: Action, p: Partition)
    requires BaseInv(s) && OutboxOrdering.CompletionInv(s) && CheckpointOf(s, p)
    requires !a.Complete? && !a.SetCheckpoint?
    ensures CheckpointOf(Next(cfg, s, a), p)
  {
    hide Next;
    var n := Next(cfg, s, a);
    OthersComplete(cfg, s, a);
    StepEvolves(cfg, s, a);
    var log := PartitionLog(s.completions, p);
    if log != [] {
      var last := log[|log| - 1];
      assert last in s.completions;
      assert Evolves(s.store.records[last.eventId], n.store.records[last.eventId]);
    }
  }

  lemma CheckpointStep(cfg: Config, s: Sys, a: Action)
    requires BaseInv(s) && OutboxOrdering.CompletionInv(s) && CheckpointInv(s) && !a.SetCheckpoint?
    ensures CheckpointInv(Next(cfg, s, a))
  {
    hide Next;
    forall p
      ensures CheckpointOf(Next(cfg, s, a), p)
    {
      assert CheckpointOf(s, p);
      if !a.Complete? {
        OthersKeepCheckpoint(cfg, s, a, p);
      } else if Next(cfg, s, a) != s {
        OutboxOrdering.FinishStep(cfg, s, a);
        CompleteAdvances(cfg, s, a, p);
      }
    }
  }

  ghost predicate NoExternalCheckpoints(actions: seq<Action>)
  {
    forall a :: a in actions ==> !a.SetCheckpoint?
  }

  /** Without external writes, every checkpoint counts the completions of its partition and names the last one. */
  lemma {:induction false} CheckpointsFollowCompletions(cfg: Config, actions: seq<Action>)
    requires NoExternalCheckpoints(actions)
    ensures CheckpointInv(Run(cfg, actions))
  {
    if actions != [] {
      var init, last := actions[..|actions| - 1], actions[|actions| - 1];
      assert last in actions && forall a :: a in init ==> a in actions;
      CheckpointsFollowCompletions(cfg, init);
      BaseRun(cfg, init);
      OutboxOrdering.CompletedOnce(cfg, init);
      CheckpointStep(cfg, Run(cfg, init), last);
    }
  }

  function Ids(log: seq<OutboxData>): set<string>
  {
    set d | d in log :: d.eventId
  }

  lemma {:induction false} DistinctCompletions(completions: seq<OutboxData>, p: Partition)
    requires forall i, j :: 0 <= i < j < |completions| ==> completions[i].eventId != completions[j].eventId
    ensures |Ids(PartitionLog(completions, p))| == |PartitionLog(completions, p)|
  {
    if completions != [] {
      var init, last := completions[..|completions| - 1], completions[|completions| - 1];
      DistinctCompletions(init, p);
      var log := PartitionLog(init, p);
      if last.PartitionKey() == p {
        assert Ids(log + [last]) == Ids(log) + {last.eventId};
        assert last.eventId !in Ids(log);
      }
    }
  }

  ghost function CompletedIds(s: Sys, p: Partition): set<string>
  {
    set id |
      && id in s.store.records && s.store.records[id].state.Completed?
      && s.store.records[id].data.PartitionKey() == p
  }

  /** A partition's revision is its number of COMPLETED records. */
  lemma RevisionCountsCompleted(cfg: Config, actions: seq<Action>, p: Partition)
    requires NoExternalCheckpoints(actions)
    ensures Revision(Run(cfg, actions).store, p) == |CompletedIds(Run(cfg, actions), p)|
  {
    var s := Run(cfg, actions);
    CheckpointsFollowCompletions(cfg, actions);
    OutboxOrdering.CompletedOnce(cfg, actions);
    BaseRun(cfg, actions);
    assert CheckpointOf(s, p);
    var log := PartitionLog(s.completions, p);
    DistinctCompletions(s.completions, p);
    forall id | id in CompletedIds(s, p)
      ensures id in Ids(log)
    {
      assert s.store.records[id].data in log;
    }
    assert Ids(log) == CompletedIds(s, p);
  }

  /** Whatever the step, external writes included: a checkpoint that changes gains exactly one revision. */
  lemma RevisionsRiseByOne(cfg: Config, s: Sys, a: Action, p: Partition)
    requires BaseInv(s)
    ensures var n := Next(cfg, s, a);
      || Revision(n.store, p) == Revision(s.store, p) + 1
      || (Revision(n.store, p) == Revision(s.store, p)
          && (p in n.store.checkpoints <==> p in s.store.checkpoints)
          && (p in s.store.checkpoints ==> n.store.checkpoints[p] == s.store.checkpoints[p]))
  {
  }

  /** A COMPLETED record is the same in every later state of the run. */
  lemma {:induction false} CompletedForever(cfg: Config, actions: seq<Action>, k: nat, id: string)
    requires k <= |actions|
    requires id in Run(cfg, actions[..k]).store.records && Run(cfg, actions[..k]).store.records[id].state.Completed?
    ensures id in Run(cfg, actions).store.records
    ensures Run(cfg, actions).store.records[id] == Run(cfg, actions[..k]).store.records[id]
    decreases |actions| - k
  {
    if k < |actions| {
      assert actions[..k + 1][..k] == actions[..k];
      BaseRun(cfg, actions[..k]);
      StepEvolves(cfg, Run(cfg, actions[..k]), actions[k]);
      CompletedForever(cfg, actions, k + 1, id);
    } else {
      assert actions[..k] == actions;
    }
  }

  // -------------------------------------------------------------- fencing

  /** The latest claim of an event. */
  function LastClaim(claims: seq<ClaimEntry>, id: string): Option<ClaimEntry>
  {
    if claims == [] then None
    else if claims[|claims| - 1].eventId == id then Some(claims[|claims| - 1])
    else LastClaim(claims[..|claims| - 1], id)
  }

  ghost function Tries(claims: seq<ClaimEntry>, id: string): nat
  {
    if claims == [] then 0
    else Tries(claims[..|claims| - 1], id) + if claims[|claims| - 1].eventId == id then 1 else 0
  }

  ghost function Reclaims(claims: seq<ClaimEntry>, id: string): nat
  {
    if claims == [] then 0
    else
      var last := claims[|claims| - 1];
      Reclaims(claims[..|claims| - 1], id) + if last.eventId == id && last.reclaimed then 1 else 0
  }

  lemma {:induction false} ClaimsExtend(claims: seq<ClaimEntry>, records: Records, ids: seq<string>, owner: string,
                                        expiresAt: int, id: string)
    requires forall q :: q in ids ==> q in records
    requires Distinct(ids)
    ensures var next := WithClaims(claims, records, ids, owner, expiresAt);
      && claims <= next && |next| == |claims| + |ids|
      && LastClaim(next, id)
         == (if id in ids then Some(ClaimEntry(id, owner, expiresAt, records[id].state.Leased?))
             else LastClaim(claims, id))
      && Tries(next, id) == Tries(claims, id) + (if id in ids then 1 else 0)
      && Reclaims(next, id) == Reclaims(claims, id) + (if id in ids && records[id].state.Leased? then 1 else 0)
      && forall k :: |claims| <= k < |next| ==> next[k].owner == owner && next[k].eventId == ids[k - |claims|]
  {
    if ids != [] {
      var init, last := ids[..|ids| - 1], ids[|ids| - 1];
      assert ids == init + [last];
      ClaimsExtend(claims, records, init, owner, expiresAt, id);
      var prior := WithClaims(claims, records, init, owner, expiresAt);
      assert WithClaims(claims, records, ids, owner, expiresAt)[..|prior|] == prior;
    }
  }

  lemma DistinctClaims(records: Records, limit: nat, at: int)
    requires WellFormed(records)
    ensures var ids := ClaimIds(records, limit, at);
      Distinct(ids) && Ready(records, ids, at)
  {
    OutboxClaims.ClaimContract(records, limit, at);
  }

  /** The threshold plus what the run granted on top of it: expired-lease reclaims and operator retries. */
  ghost function Allowance(cfg: Config, s: Sys, id: string): nat
  {
    cfg.threshold + Reclaims(s.claims, id) + s.retries[id]
  }

  predicate Holds(claim: Option<ClaimEntry>, lease: Lease)
  {
    claim.Some? && claim.value.owner == lease.owner && claim.value.expiresAt == lease.expiresAt
  }

  ghost predicate RecordInv(cfg: Config, s: Sys, id: string)
    requires id in s.store.records
  {
    var r := s.store.records[id];
    && r.attemptCount == Tries(s.claims, id)
    && (r.lease.Some? ==> Holds(LastClaim(s.claims, id), r.lease.value))
    && (r.state.Pending? ==> r.attemptCount == 0)
    && (r.state.Retryable? ==> r.attemptCount < Allowance(cfg, s, id))
    && r.attemptCount <= Allowance(cfg, s, id)
  }

  ghost predicate LeaseInv(cfg: Config, s: Sys)
  {
    && (forall id :: id in s.store.records ==> RecordInv(cfg, s, id))
    && (forall k :: 0 <= k < |s.claims| ==> s.claims[k].eventId in s.store.records)
  }

  lemma {:induction false} NeverClaimed(claims: seq<ClaimEntry>, id: string)
    requires forall k :: 0 <= k < |claims| ==> claims[k].eventId != id
    ensures Tries(claims, id) == 0
  {
    if claims != [] { NeverClaimed(claims[..|claims| - 1], id); }
  }

  ghost predicate Ready(records: Records, ids: seq<string>, at: int)
  {
    forall id :: id in ids ==> id in records && Eligible(records[id], at)
  }

  lemma ClaimKeepsRecord(cfg: Config, s: Sys, ids: seq<string>, owner: string, duration: int, at: int, id: string)
    requires id in s.store.records && RecordInv(cfg, s, id) && RecordWellFormed(id, s.store.records[id])
    requires Ready(s.store.records, ids, at) && Distinct(ids) && cfg.threshold >= 1
    ensures RecordInv(cfg, ClaimOf(s, ids, owner, duration, at), id)
  {
    hide WithClaims, LastClaim, Tries, Reclaims, Distinct, Attempts;
    ClaimsExtend(s.claims, s.store.records, ids, owner, at + duration, id);
    assert id in ids ==> Eligible(s.store.records[id], at);
  }

  lemma ClaimKeepsLeaseInv(cfg: Config, s: Sys, ids: seq<string>, owner: string, duration: int, at: int)
    requires WellFormed(s.store.records) && LeaseInv(cfg, s) && cfg.threshold >= 1
    requires Ready(s.store.records, ids, at) && Distinct(ids)
    ensures LeaseInv(cfg, ClaimOf(s, ids, owner, duration, at))
  {
    hide WithClaims, LastClaim, Tries, Reclaims, Distinct, Attempts, RecordInv;
    var n := ClaimOf(s, ids, owner, duration, at);
    forall id | id in n.store.records
      ensures RecordInv(cfg, n, id)
    {
      ClaimKeepsRecord(cfg, s, ids, owner, duration, at, id);
    }
    ClaimsExtend(s.claims, s.store.records, ids, owner, at + duration, "");
  }

  /** What any step but a claim does to one record, its claims and its operator retries. */
  lemma OtherStep(cfg: Config, s: Sys, a: Action, id: string)
    requires !a.Claim? && id in s.store.records
    ensures var n := Next(cfg, s, a);
      && n.claims == s.claims && id in n.store.records
      && var r, next, retries := s.store.records[id], n.store.records[id], n.retries[id];
         || (next == r && s.retries[id] <= retries)
         || (&& r.state.Leased? && next.state.Completed? && retries == s.retries[id]
             && next == r.(state := Completed, lease := None, failure := None,
                           targetFingerprint := next.targetFingerprint, completedAt := next.completedAt))
         || (exists failure, retryable ::
               next == Released(r, cfg.threshold, failure, retryable) && retries == s.retries[id])
         || (r.state.Quarantined? && next == r.(state := Retryable, failure := None) && retries == s.retries[id] + 1)
  {
  }

  lemma OthersKeepRecord(cfg: Config, s: Sys, a: Action, id: string)
    requires id in s.store.records && RecordInv(cfg, s, id) && cfg.threshold >= 1 && !a.Claim?
    ensures id in Next(cfg, s, a).store.records && RecordInv(cfg, Next(cfg, s, a), id)
  {
    OtherStep(cfg, s, a, id);
  }

  lemma LeaseStep(cfg: Config, s: Sys, a: Action)
    requires BaseInv(s) && LeaseInv(cfg, s) && cfg.threshold >= 1
    ensures LeaseInv(cfg, Next(cfg, s, a))
  {
    if a.Claim? {
      if ReplyTo(cfg, s, a).Done? {
        var ids := ClaimIds(s.store.records, a.limit, a.at);
        DistinctClaims(s.store.records, a.limit, a.at);
        ClaimKeepsLeaseInv(cfg, s, ids, a.owner, a.duration, a.at);
      }
    } else {
      forall id | id in Next(cfg, s, a).store.records
        ensures RecordInv(cfg, Next(cfg, s, a), id)
      {
        if id in s.store.records {
          OthersKeepRecord(cfg, s, a, id);
        } else {
          NeverClaimed(s.claims, id);
        }
      }
      assert s.store.records.Keys <= Next(cfg, s, a).store.records.Keys by { StepEvolves(cfg, s, a); }
    }
  }

  lemma {:induction false} LeaseRun(cfg: Config, actions: seq<Action>)
    requires cfg.threshold >= 1
    ensures LeaseInv(cfg, Run(cfg, actions))
  {
    if actions != [] {
      LeaseRun(cfg, actions[..|actions| - 1]);
      BaseRun(cfg, actions[..|actions| - 1]);
      LeaseStep(cfg, Run(cfg, actions[..|actions| - 1]), actions[|actions| - 1]);
    }
  }

  /** Attempts are exactly claims, and stay within the threshold plus reclaims plus operator retries. */
  lemma AttemptsBounded(cfg: Config, actions: seq<Action>, id: string)
    requires cfg.threshold >= 1 && id in Run(cfg, actions).store.records
    ensures var s := Run(cfg, actions);
      && s.store.records[id].attemptCount == Tries(s.claims, id)
      && s.store.records[id].attemptCount <= cfg.threshold + Reclaims(s.claims, id) + s.retries[id]
  {
    LeaseRun(cfg, actions);
    assert RecordInv(cfg, Run(cfg, actions), id);
  }

  /** A claim is still current: its record is leased, and no later claim of the event has another owner or expiry. */
  ghost predicate Current(s: Sys, owner: string, id: string, at: int)
  {
    && id in s.store.records && s.store.records[id].state.Leased?
    && LastClaim(s.claims, id).Some?
    && LastClaim(s.claims, id).value.owner == owner
    && at < LastClaim(s.claims, id).value.expiresAt
  }

  /** The port's check: exactly the owner of the latest claim may act, and only strictly before its expiry. */
  lemma AcceptedExactly(cfg: Config, actions: seq<Action>, t: Attempt, at: int)
    requires cfg.threshold >= 1
    ensures var s := Run(cfg, actions);
      && (forall ack, fingerprint :: ReplyTo(cfg, s, Complete(t, ack, fingerprint, at)).Done?
            <==> Current(s, t.owner, t.eventId, at) && ack == s.store.records[t.eventId].data.sourceVersion)
      && (forall code, retryable :: ReplyTo(cfg, s, Release(t, code, retryable, at)).Done?
            <==> Current(s, t.owner, t.eventId, at))
  {
    var s := Run(cfg, actions);
    LeaseRun(cfg, actions);
    BaseRun(cfg, actions);
    if t.eventId in s.store.records { assert RecordInv(cfg, s, t.eventId); }
  }

  /** Every claim of the run used an owner that no earlier claim had. */
  ghost predicate FreshOwners(cfg: Config, actions: seq<Action>)
  {
    actions == []
    || (var init, last := actions[..|actions| - 1], actions[|actions| - 1];
        && FreshOwners(cfg, init)
        && (last.Claim? ==>
              forall k :: 0 <= k < |Run(cfg, init).claims| ==> Run(cfg, init).claims[k].owner != last.owner))
  }

  ghost predicate OwnedOnce(claims: seq<ClaimEntry>)
  {
    forall i, j :: 0 <= i < j < |claims| && claims[i].owner == claims[j].owner ==>
      claims[i].eventId != claims[j].eventId
  }

  lemma NewOwnerOwnsOnce(claims: seq<ClaimEntry>, records: Records, ids: seq<string>, owner: string, expiresAt: int)
    requires OwnedOnce(claims) && Distinct(ids) && forall id :: id in ids ==> id in records
    requires forall k :: 0 <= k < |claims| ==> claims[k].owner != owner
    ensures OwnedOnce(WithClaims(claims, records, ids, owner, expiresAt))
  {
    ClaimsExtend(claims, records, ids, owner, expiresAt, "");
  }

  lemma ClaimsOnlyByClaiming(cfg: Config, s: Sys, a: Action)
    ensures Next(cfg, s, a).claims == if a.Claim? && ReplyTo(cfg, s, a).Done?
      then WithClaims(s.claims, s.store.records, ClaimIds(s.store.records, a.limit, a.at), a.owner, a.at + a.duration)
      else s.claims
  {
    hide ClaimIds, WithClaims;
  }

  lemma {:induction false} FreshOwnersOwnOnce(cfg: Config, actions: seq<Action>)
    requires FreshOwners(cfg, actions)
    ensures OwnedOnce(Run(cfg, actions).claims)
  {
    hide Next, ClaimIds, WithClaims, IsHead;
    if actions != [] {
      var init, last := actions[..|actions| - 1], actions[|actions| - 1];
      FreshOwnersOwnOnce(cfg, init);
      var s := Run(cfg, init);
      ClaimsOnlyByClaiming(cfg, s, last);
      if last.Claim? && ReplyTo(cfg, s, last).Done? {
        BaseRun(cfg, init);
        DistinctClaims(s.store.records, last.limit, last.at);
        NewOwnerOwnsOnce(s.claims, s.store.records, ClaimIds(s.store.records, last.limit, last.at), last.owner,
                         last.at + last.duration);
      }
    }
  }

  /** Claim number `k` is the newest claim of the event. */
  predicate IsLast(claims: seq<ClaimEntry>, k: nat, id: string)
    requires k < |claims|
  {
    claims[k].eventId == id && forall j :: k < j < |claims| ==> claims[j].eventId != id
  }

  lemma {:induction false} LastClaimIsLast(claims: seq<ClaimEntry>, id: string)
    requires LastClaim(claims, id).Some?
    ensures exists k :: 0 <= k < |claims| && claims[k] == LastClaim(claims, id).value && IsLast(claims, k, id)
  {
    var n := |claims| - 1;
    if claims[n].eventId == id {
      assert IsLast(claims, n, id);
    } else {
      LastClaimIsLast(claims[..n], id);
      var k :| 0 <= k < n && claims[..n][k] == LastClaim(claims[..n], id).value && IsLast(claims[..n], k, id);
      assert forall j :: k < j < n ==> claims[j] == claims[..n][j];
      assert IsLast(claims, k, id);
    }
  }

  /** No later claim of the same event has the owner of claim number `k`. */
  predicate OwnerNotReused(claims: seq<ClaimEntry>, k: nat)
    requires k < |claims|
  {
    forall j :: k < j < |claims| && claims[j].eventId == claims[k].eventId ==> claims[j].owner != claims[k].owner
  }

  /** Once an event has been claimed by another owner, an overtaken worker can neither complete nor release it. */
  lemma OvertakenIsFenced(cfg: Config, actions: seq<Action>, k: nat, at: int)
    requires cfg.threshold >= 1 && k < |Run(cfg, actions).claims| && OwnerNotReused(Run(cfg, actions).claims, k)
    ensures var s := Run(cfg, actions);
      var claim := s.claims[k];
      Current(s, claim.owner, claim.eventId, at) ==>
        at < claim.expiresAt && IsLast(s.claims, k, claim.eventId)
  {
    var s := Run(cfg, actions);
    var claim := s.claims[k];
    if Current(s, claim.owner, claim.eventId, at) {
      LastClaimIsLast(s.claims, claim.eventId);
      var i :| 0 <= i < |s.claims| && s.claims[i] == LastClaim(s.claims, claim.eventId).value
        && IsLast(s.claims, i, claim.eventId);
      assert i == k;
    }
  }

  /** With a fresh owner per claim every overtaken attempt is fenced. */
  lemma FreshOwnersFence(cfg: Config, actions: seq<Action>, k: nat, at: int)
    requires cfg.threshold >= 1 && FreshOwners(cfg, actions) && k < |Run(cfg, actions).claims|
    ensures var s := Run(cfg, actions);
      var claim := s.claims[k];
      Current(s, claim.owner, claim.eventId, at) ==>
        at < claim.expiresAt && IsLast(s.claims, k, claim.eventId)
  {
    hide Run;
    FreshOwnersOwnOnce(cfg, actions);
    OvertakenIsFenced(cfg, actions, k, at);
  }

  /** When an owner is reused the overtaken attempt passes the check: the port cannot tell the two apart. */
  lemma ReusedOwnerIsNotFenced(cfg: Config, actions: seq<Action>, k: nat, j: nat, at: int)
    requires cfg.threshold >= 1
    requires var s := Run(cfg, actions);
      && k < j < |s.claims| && s.claims[k].owner == s.claims[j].owner && s.claims[k].eventId == s.claims[j].eventId
      && LastClaim(s.claims, s.claims[k].eventId) == Some(s.claims[j])
      && s.claims[j].eventId in s.store.records && s.store.records[s.claims[j].eventId].state.Leased?
      && at < s.claims[j].expiresAt
    ensures var s := Run(cfg, actions);
      forall code, retryable ::
        ReplyTo(cfg, s, Release(Attempt(s.claims[k].owner, s.claims[k].eventId), code, retryable, at)).Done?
  {
    var s := Run(cfg, actions);
    AcceptedExactly(cfg, actions, Attempt(s.claims[k].owner, s.claims[k].eventId), at);
  }

  lemma AloneIsHead(r: Record, at: int)
    requires RecordWellFormed(r.data.eventId, r) && !r.state.Completed? && Eligible(r, at)
    ensures WellFormed(map[r.data.eventId := r])
    ensures forall q :: Claimable(map[r.data.eventId := r], q, at) <==> q == r.data.eventId
  {
    BeforeIsTotal();
  }

  /**
   * An owner that claims again after its lease ran out: the first attempt can still complete, on the second one's
   * lease.
   */
  lemma ReusedOwnerSchedule(cfg: Config, actions: seq<Action>, data: OutboxData, fingerprint: string)
    requires |actions| == 3 && actions[0] == Append(data)
    requires actions[1] == Claim("w", 1, 10, 0) && actions[2] == Claim("w", 1, 10, 10)
    ensures var first, second := Run(cfg, actions[..2]).store, Run(cfg, actions).store;
      && data.eventId in first.records && first.records[data.eventId].lease == Some(Lease("w", 0, 10, 1))
      && data.eventId in second.records && second.records[data.eventId].lease == Some(Lease("w", 10, 20, 2))
      && OutboxModel.Complete(second, data.eventId, "w", data.sourceVersion, fingerprint, 15).reply.Done?
  {
    hide Next, RunFrom;
    OutboxOrdering.RunStep(cfg, actions, 0);
    OutboxOrdering.RunStep(cfg, actions, 1);
    OutboxOrdering.RunStep(cfg, actions, 2);
    assert actions[..3] == actions && actions[..0] == [];
    NothingRun(cfg, data);
    var leased := Leasing(Fresh(data), "w", 0, 10);
    AloneIsHead(Fresh(data), 0);
    OutboxOrdering.ClaimOnly(cfg, Run(cfg, actions[..1]), "w", data.eventId, 0);
    AloneIsHead(leased, 10);
    assert Run(cfg, actions[..2]).store.records == map[data.eventId := leased];
    OutboxOrdering.ClaimOnly(cfg, Run(cfg, actions[..2]), "w", data.eventId, 10);
  }

  lemma NothingRun(cfg: Config, data: OutboxData)
    ensures Run(cfg, []) == EMPTY
    ensures Next(cfg, EMPTY, Append(data)).store == Store(map[data.eventId := Fresh(data)], map[])
  {
  }
}
