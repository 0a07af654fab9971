/** The projection runner: one claim, one delivery per claimed record, and loops of such cycles. */
module ProjectionRunner {
  import opened Wrappers
  import opened Identifiers
  import opened OutboxModel
  import opened OutboxProtocol
  import opened VersionedTarget
  import opened Deployment
  import OutboxStore
  import OutboxClaims

  datatype ProjectionRun = ProjectionRun(claimed: nat, completed: nat, retryable: nat, quarantined: nat)
  {
    function Plus(other: ProjectionRun): ProjectionRun
    {
      ProjectionRun(claimed + other.claimed, completed + other.completed,
                    retryable + other.retryable, quarantined + other.quarantined)
    }

    predicate Balanced() { claimed == completed + retryable + quarantined }
  }

  /** Why a cycle did not return: the exceptions that leave `run_once`, or the end of the process. */
  datatype RunError = Crashed | ReleaseRefused(reply: Reply) | EvidenceFailed | NotIdle | BadCycleCount

  /** One entry of a target result: missing, a string or integer, or anything else. */
  datatype Candidate = Absent | Version(version: Version) | Other

  /** The target call: refused, written but not acknowledged, or written and answered. */
  datatype WriteFate = Refused | AnswerLost | Answered(candidates: seq<Candidate>, fingerprint: string)

  datatype Stop = Never | BeforeWrite | AfterWrite | AfterComplete | BeforeRelease

  /** Everything outside the runner during one delivery: other parties' steps, failures and clock readings. */
  datatype Delivery = Delivery(
    beforeWrite: seq<Action>, write: WriteFate, beforeComplete: seq<Action>, completeAt: int, evidenceFails: bool,
    beforeRelease: seq<Action>, code: string, retryable: bool, releaseAt: int, releaseEvidenceFails: bool, stop: Stop)
  {
    predicate Quiet() { beforeWrite == [] && beforeComplete == [] && beforeRelease == [] }

    /** Nothing goes wrong once the event is completed. */
    predicate Clean() { stop != AfterComplete && !evidenceFails }

    ghost predicate Foreign(owner: string)
    {
      ForeignTo(owner, beforeWrite) && ForeignTo(owner, beforeComplete) && ForeignTo(owner, beforeRelease)
    }
  }

  /** Steps of other parties: nobody else claims or stops under this owner. */
  ghost predicate ForeignTo(owner: string, actions: seq<Action>)
  {
    forall a :: a in actions ==> (a.Claim? || a.Crash?) ==> a.owner != owner
  }

  /** A string or an integer. */
  predicate Usable(candidate: Candidate)
  {
    candidate.Version? && !candidate.version.NoVersion?
  }

  /** The first string or integer among the result's version entries. */
  function FirstVersion(candidates: seq<Candidate>): Option<Version>
  {
    if candidates == [] then None
    else if Usable(candidates[0]) then Some(candidates[0].version)
    else FirstVersion(candidates[1..])
  }

  function DefaultAcknowledgement(data: OutboxData, candidates: seq<Candidate>): Option<Version>
  {
    if data.sourceVersion.NoVersion? then Some(NoVersion) else FirstVersion(candidates)
  }

  lemma {:induction false} FirstVersionExactly(candidates: seq<Candidate>)
    ensures FirstVersion(candidates).None? <==> forall c :: c in candidates ==> !Usable(c)
    ensures FirstVersion(candidates).Some? ==>
      exists k :: 0 <= k < |candidates| && candidates[k] == Version(FirstVersion(candidates).value)
                  && Usable(candidates[k]) && forall j :: 0 <= j < k ==> !Usable(candidates[j])
  {
    if candidates != [] {
      assert candidates == [candidates[0]] + candidates[1..];
      FirstVersionExactly(candidates[1..]);
      if Usable(candidates[0]) {
        assert candidates[0] == Version(FirstVersion(candidates).value);
      } else if FirstVersion(candidates).Some? {
        var k :| 0 <= k < |candidates[1..]| && candidates[1..][k] == Version(FirstVersion(candidates[1..]).value)
                 && Usable(candidates[1..][k]) && forall j :: 0 <= j < k ==> !Usable(candidates[1..][j]);
        assert candidates[k + 1] == candidates[1..][k];
        assert forall j :: 0 < j < k + 1 ==> candidates[j] == candidates[1..][j - 1];
      }
    }
  }

  /** An event without a version needs no acknowledgement; else the first usable entry must be its version. */
  lemma AcknowledgedExactly(data: OutboxData, candidates: seq<Candidate>)
    ensures DefaultAcknowledgement(data, candidates) == Some(data.sourceVersion)
      <==> data.sourceVersion.NoVersion? || Acknowledges(candidates, data.sourceVersion)
    ensures DefaultAcknowledgement(data, candidates).None?
      <==> !data.sourceVersion.NoVersion? && forall c :: c in candidates ==> !Usable(c)
  {
    FirstVersionExactly(candidates);
  }

  ghost predicate Acknowledges(candidates: seq<Candidate>, version: OutboxModel.Version)
  {
    exists k :: 0 <= k < |candidates| && candidates[k] == Version(version) && Usable(candidates[k])
                && forall j :: 0 <= j < k ==> !Usable(candidates[j])
  }

  /** The write lands and is acknowledged as it should be, in time. */
  predicate Goes(spec: Spec, data: OutboxData, d: Delivery, expiresAt: int)
  {
    && Writes(spec, data, d) && d.write.Answered?
    && DefaultAcknowledgement(data, d.write.candidates) == Some(data.sourceVersion)
    && d.completeAt < expiresAt
  }

  /** The record is still leased to this owner. */
  predicate HoldsLease(r: Record, owner: string, at: int)
  {
    r.state.Leased? && r.lease.Some? && r.lease.value.owner == owner && at < r.lease.value.expiresAt
  }

  /** The deliveries that end in completion: all goes well, and the lease is still this worker's at the end. */
  predicate Smooth(spec: Spec, owner: string, r: Record, d: Delivery)
  {
    r.state.Leased? && r.lease.Some? && r.lease.value.owner == owner && Goes(spec, r.data, d, r.lease.value.expiresAt)
  }

  /** The process ends before it has an answer of the target. */
  predicate Stops(spec: Spec, data: OutboxData, d: Delivery)
  {
    d.stop == BeforeWrite || (d.stop == AfterWrite && d.write != Refused && Project(spec, data).Some?)
  }

  /**
   * The deliveries that return: completed without a hitch afterwards, or handed back in time. The worker meets the
   * record as `met` when it completes and as `left` when it releases.
   */
  predicate Returns(spec: Spec, owner: string, d: Delivery, met: Record, left: Record)
  {
    if Smooth(spec, owner, met, d) then d.Clean()
    else
      && !Stops(spec, met.data, d) && d.stop != BeforeRelease && HoldsLease(left, owner, d.releaseAt)
      && !d.releaseEvidenceFails
  }

  lemma CountsOne()
    ensures TallyOf(Completed) == ProjectionRun(0, 1, 0, 0)
  {
  }

  lemma CompletedIsLost(r: Record, owner: string, at: int)
    requires r.state.Completed?
    ensures !HoldsLease(r, owner, at)
  {
  }

  /** The records as a step of the delivery met them: as they were, but for what others did in between. */
  ghost predicate Met(before: Records, met: Records, data: OutboxData, d: Delivery)
  {
    && Kept(before, met) && (d.Quiet() ==> met == before)
    && data.eventId in met && met[data.eventId].data == data
  }

  lemma MetLater(start: Records, before: Records, later: Records, data: OutboxData, d: Delivery)
    requires Met(start, before, data, d) && Met(before, later, data, d)
    ensures Met(start, later, data, d)
  {
    KeptTransitive(start, before, later);
  }

  lemma MetRecord(start: Records, met: Records, data: OutboxData, d: Delivery)
    requires Met(start, met, data, d)
    ensures data.eventId in met && met[data.eventId].data == data && Kept(start, met)
  {
  }

  ghost function WithCompletion(records: Records, id: string, d: Delivery): Records
    requires id in records
  {
    if d.write.Answered? then records[id := Finished(records[id], d.write.fingerprint, d.completeAt)] else records
  }

  ghost function WithRelease(threshold: nat, records: Records, id: string, d: Delivery): Records
    requires id in records
  {
    records[id := Released(records[id], threshold, Failure(d.code, d.releaseAt), d.retryable)]
  }

  /** What the records are when a delivery has returned. */
  ghost predicate Ended(threshold: nat, spec: Spec, owner: string, d: Delivery, data: OutboxData, start: Records,
                        met: Records, left: Records, after: Records)
  {
    var id := data.eventId;
    && id in met && id in left && id in after
    && Leaves(threshold, spec, owner, d, met[id], left[id], after[id]) && SettledState(after[id].state)
    && (d.Quiet() && id in start ==> after == start[id := after[id]])
  }

  lemma CompletedEnds(threshold: nat, spec: Spec, owner: string, d: Delivery, data: OutboxData, start: Records,
                      met: Records)
    requires Met(start, met, data, d) && Smooth(spec, owner, met[data.eventId], d)
    ensures Ended(threshold, spec, owner, d, data, start, met, met, WithCompletion(met, data.eventId, d))
    ensures WithCompletion(met, data.eventId, d)[data.eventId].state.Completed?
  {
  }

  lemma ReleasedEnds(threshold: nat, spec: Spec, owner: string, d: Delivery, data: OutboxData, start: Records,
                     met: Records, left: Records)
    requires Met(start, met, data, d) && Met(start, left, data, d) && !Smooth(spec, owner, met[data.eventId], d)
    ensures Ended(threshold, spec, owner, d, data, start, met, left, WithRelease(threshold, left, data.eventId, d))
  {
  }

  /** What a delivery that returns leaves of the record. */
  predicate Leaves(threshold: nat, spec: Spec, owner: string, d: Delivery, met: Record, left: Record, after: Record)
  {
    if Smooth(spec, owner, met, d)
    then after == met.(state := Completed, lease := None, failure := None,
                       targetFingerprint := Some(d.write.fingerprint), completedAt := Some(d.completeAt))
    else after == left.(state := if d.retryable && left.attemptCount < threshold then Retryable else Quarantined,
                        lease := None, failure := Some(Failure(d.code, d.releaseAt)))
  }

  /** How each event's delivery goes in one cycle. */
  type Plan = OutboxData -> Delivery

  /** The deliveries whose row reaches the target and whose process is still there afterwards. */
  predicate Writes(spec: Spec, data: OutboxData, d: Delivery)
  {
    d.stop != BeforeWrite && d.stop != AfterWrite && d.write != Refused && Project(spec, data).Some?
  }

  // ------------------------------------------------------ steps of others

  lemma {:induction false} HeldStays(cfg: Config, s: Sys, actions: seq<Action>, t: Attempt)
    requires ForeignTo(t.owner, actions)
    ensures t in s.held ==> t in RunFrom(cfg, s, actions).held
    ensures t in s.written ==> t in RunFrom(cfg, s, actions).written
  {
    if actions != [] {
      var init, last := actions[..|actions| - 1], actions[|actions| - 1];
      assert last in actions && forall a :: a in init ==> a in actions;
      HeldStays(cfg, s, init, t);
    }
  }

  lemma {:induction false} RecordsKept(cfg: Config, s: Sys, actions: seq<Action>)
    ensures Kept(s.store.records, RunFrom(cfg, s, actions).store.records)
  {
    if actions != [] {
      var mid := RunFrom(cfg, s, actions[..|actions| - 1]);
      RecordsKept(cfg, s, actions[..|actions| - 1]);
      StepEvolves(cfg, mid, actions[|actions| - 1]);
      KeptTransitive(s.store.records, mid.store.records, RunFrom(cfg, s, actions).store.records);
    }
  }

  lemma {:induction false} RunFromAppend(cfg: Config, s: Sys, a: seq<Action>, b: seq<Action>)
    ensures RunFrom(cfg, s, a + b) == RunFrom(cfg, RunFrom(cfg, s, a), b)
    decreases |b|
  {
    if b == [] {
      assert a + b == a;
    } else {
      assert (a + b)[..|a + b| - 1] == a + b[..|b| - 1];
      RunFromAppend(cfg, s, a, b[..|b| - 1]);
    }
  }

  lemma KeptRecord(before: Records, after: Records, id: string)
    requires Kept(before, after) && id in before
    ensures id in after && Evolves(before[id], after[id])
  {
  }

  lemma KeptReflexive(records: Records)
    ensures Kept(records, records)
  {
  }

  lemma OthersLeave(cfg: Config, log: seq<Action>, actions: seq<Action>, owner: string)
    requires ForeignTo(owner, actions)
    ensures var i := ImageAfter(cfg, log);
      var j := ImageAfter(cfg, log + actions);
      && (forall t: Attempt :: t.owner == owner ==>
            (t in i.held ==> t in j.held) && (t in i.written ==> t in j.written))
      && Kept(i.store.records, j.store.records)
  {
    RunFromAppend(cfg, EMPTY, log, actions);
    RecordsKept(cfg, Run(cfg, log), actions);
    forall t: Attempt | t.owner == owner
      ensures t in Run(cfg, log).held ==> t in Run(cfg, log + actions).held
      ensures t in Run(cfg, log).written ==> t in Run(cfg, log + actions).written
    {
      HeldStays(cfg, Run(cfg, log), actions, t);
    }
  }

  class Runner {
    const host: Host
    const owner: string
    const batchSize: int
    const leaseSeconds: int

    constructor (host: Host, owner: string, batchSize: int, leaseSeconds: int)
      requires owner != "" && batchSize >= 1 && leaseSeconds > 0
      ensures this.host == host && this.owner == owner && this.batchSize == batchSize
      ensures this.leaseSeconds == leaseSeconds
      ensures Ready()
    {
      this.host, this.owner, this.batchSize, this.leaseSeconds := host, owner, batchSize, leaseSeconds;
    }

    predicate Ready() { owner != "" && batchSize >= 1 && leaseSeconds > 0 }

    /** Other parties act; this worker keeps what it has in hand, and a finished record stays as it is. */
    method Others(actions: seq<Action>)
      requires host.Valid() && ForeignTo(owner, actions)
      modifies host, host.store, host.store.Objects()
      ensures host.Valid()
      ensures forall o :: o in host.store.Objects() && o !in old(host.store.Objects()) ==> fresh(o)
      ensures forall t: Attempt :: t.owner == owner && t in old(host.held) ==> t in host.held
      ensures forall t: Attempt :: t.owner == owner && t in old(host.written) ==> t in host.written
      ensures Kept(old(host.store.Recs()), host.store.Recs())
      ensures actions == [] ==> host.store.Recs() == old(host.store.Recs())
    {
      hide ImageAfter, OutboxStore.InMemoryOutboxStore.Valid, OutboxStore.InMemoryOutboxStore.Recs,
        OutboxStore.InMemoryOutboxStore.Objects, ForeignTo, Kept;
      OthersLeave(host.cfg, host.log, actions, owner);
      host.PerformAll(actions);
      assert actions == [] ==> old(host.log) + actions == old(host.log);
    }

    /** The `try` block of one delivery: project, write, read the acknowledgement, complete, record evidence. */
    method TryDeliver(data: OutboxData, d: Delivery)
      returns (completed: bool, raised: bool, stopped: bool, ghost met: Records)
      requires host.Valid() && d.Foreign(owner) && InHand(data)
      modifies host, host.store, host.store.Objects()
      ensures host.Valid()
      ensures forall o :: o in host.store.Objects() && o !in old(host.store.Objects()) ==> fresh(o)
      ensures !stopped ==> forall t: Attempt :: t.owner == owner && t in old(host.held) ==> t in host.held
      ensures Kept(old(host.store.Recs()), host.store.Recs())
      ensures completed ==> data.eventId in host.store.Recs() && host.store.Recs()[data.eventId].state.Completed?
      ensures stopped <==> if completed then d.stop == AfterComplete else Stops(host.cfg.spec, data, d)
      ensures !stopped ==> (raised <==> !completed || d.evidenceFails)
      ensures Met(old(host.store.Recs()), met, data, d)
      ensures completed <==> Smooth(host.cfg.spec, owner, met[data.eventId], d)
      ensures host.store.Recs() == if completed then WithCompletion(met, data.eventId, d) else met
    {
      hide ImageAfter, OutboxStore.InMemoryOutboxStore.Valid, OutboxStore.InMemoryOutboxStore.Recs,
        OutboxStore.InMemoryOutboxStore.Objects, ForeignTo, Project, Kept;
      ghost var start := host.store.Recs();
      completed, raised := false, true;
      var written;
      written, stopped := TryWrite(data, d);
      met := host.store.Recs();
      KeptRecord(start, met, data.eventId);
      if written {
        ghost var before := met;
        completed, met := TryComplete(data, d);
        KeptTransitive(start, before, met);
        KeptTransitive(start, before, host.store.Recs());
        KeptRecord(start, met, data.eventId);
        if completed && d.stop == AfterComplete {
          host.Crash(owner);
          return completed, true, true, met;
        }
        raised := !completed || d.evidenceFails;
      }
    }

    /** Project the event and write its row; the row may land although the call raises. */
    method TryWrite(data: OutboxData, d: Delivery) returns (written: bool, stopped: bool)
      requires host.Valid() && d.Foreign(owner) && InHand(data)
      modifies host, host.store, host.store.Objects()
      ensures host.Valid()
      ensures forall o :: o in host.store.Objects() && o !in old(host.store.Objects()) ==> fresh(o)
      ensures !stopped ==> forall t: Attempt :: t.owner == owner && t in old(host.held) ==> t in host.held
      ensures Kept(old(host.store.Recs()), host.store.Recs())
      ensures written ==> !stopped && d.write.Answered? && OutboxProtocol.Attempt(owner, data.eventId) in host.written
      ensures written <==> Writes(host.cfg.spec, data, d) && d.write.Answered?
      ensures Writes(host.cfg.spec, data, d) ==> var row := Project(host.cfg.spec, data).value;
        row.id in host.target && host.target[row.id] == row
      ensures stopped <==> Stops(host.cfg.spec, data, d)
      ensures d.Quiet() ==> host.store.Recs() == old(host.store.Recs())
    {
      hide ImageAfter, OutboxStore.InMemoryOutboxStore.Valid, OutboxStore.InMemoryOutboxStore.Recs,
        OutboxStore.InMemoryOutboxStore.Objects, ForeignTo, Project, Kept;
      var t := OutboxProtocol.Attempt(owner, data.eventId);
      ghost var start := host.store.Recs();
      Others(d.beforeWrite);
      KeptRecord(start, host.store.Recs(), data.eventId);
      if d.stop == BeforeWrite {
        host.Crash(owner);
        return false, true;
      }
      if Project(host.cfg.spec, data).None? || d.write == Refused { return false, false; }
      host.Write(t);
      if d.stop == AfterWrite {
        host.Crash(owner);
        return false, true;
      }
      return d.write.Answered?, false;
    }

    /** Read the target's acknowledgement and complete the event with it. */
    method TryComplete(data: OutboxData, d: Delivery) returns (completed: bool, ghost met: Records)
      requires host.Valid() && d.Foreign(owner) && InHand(data) && d.write.Answered?
      requires OutboxProtocol.Attempt(owner, data.eventId) in host.written
      modifies host, host.store, host.store.Objects()
      ensures host.Valid()
      ensures forall o :: o in host.store.Objects() && o !in old(host.store.Objects()) ==> fresh(o)
      ensures forall t: Attempt :: t.owner == owner && t in old(host.held) ==> t in host.held
      ensures Kept(old(host.store.Recs()), host.store.Recs())
      ensures completed ==> data.eventId in host.store.Recs() && host.store.Recs()[data.eventId].state.Completed?
      ensures Met(old(host.store.Recs()), met, data, d)
      ensures Writes(host.cfg.spec, data, d) ==> (completed <==> Smooth(host.cfg.spec, owner, met[data.eventId], d))
      ensures host.store.Recs() == if completed then WithCompletion(met, data.eventId, d) else met
    {
      hide ImageAfter, OutboxStore.InMemoryOutboxStore.Valid, OutboxStore.InMemoryOutboxStore.Recs,
        OutboxStore.InMemoryOutboxStore.Objects, ForeignTo, Project, Kept;
      var t := OutboxProtocol.Attempt(owner, data.eventId);
      var ack := DefaultAcknowledgement(data, d.write.candidates);
      ghost var start := host.store.Recs();
      KeptReflexive(start);
      met := start;
      if ack.None? { return false, met; }
      Others(d.beforeComplete);
      met := host.store.Recs();
      KeptRecord(start, met, data.eventId);
      var reply := host.Complete(t, ack.value, d.write.fingerprint, d.completeAt);
      KeptTransitive(start, met, host.store.Recs());
      KeptRecord(start, host.store.Recs(), data.eventId);
      completed := reply == Done;
    }

    ghost predicate InHand(data: OutboxData)
      reads host, host.store, host.store.Objects()
    {
      && OutboxProtocol.Attempt(owner, data.eventId) in host.held
      && data.eventId in host.store.Recs() && host.store.Recs()[data.eventId].data == data
    }

    /** The `except` block: hand the event back; whatever the store refuses leaves the cycle as an error. */
    method Recover(data: OutboxData, d: Delivery)
      returns (error: Option<RunError>, tally: ProjectionRun, ghost left: Records)
      requires host.Valid() && d.Foreign(owner) && InHand(data)
      modifies host, host.store, host.store.Objects()
      ensures host.Valid()
      ensures forall o :: o in host.store.Objects() && o !in old(host.store.Objects()) ==> fresh(o)
      ensures error.None? ==> forall t: Attempt :: t.owner == owner && t in old(host.held) ==> t in host.held
      ensures Kept(old(host.store.Recs()), host.store.Recs())
      ensures data.eventId in host.store.Recs()
      ensures old(host.store.Recs())[data.eventId].state.Completed? ==>
        error.Some? && tally == ProjectionRun(0, 0, 0, 0) && host.store.Recs()[data.eventId].state.Completed?
      ensures error.None? ==> tally == TallyOf(host.store.Recs()[data.eventId].state)
      ensures error.None? ==>
        (host.store.Recs()[data.eventId].state.Retryable? || host.store.Recs()[data.eventId].state.Quarantined?)
      ensures Met(old(host.store.Recs()), left, data, d)
      ensures error.None? <==>
        d.stop != BeforeRelease && HoldsLease(left[data.eventId], owner, d.releaseAt) && !d.releaseEvidenceFails
      ensures host.store.Recs() ==
        if d.stop != BeforeRelease && HoldsLease(left[data.eventId], owner, d.releaseAt)
        then WithRelease(host.cfg.threshold, left, data.eventId, d) else left
      ensures error != Some(NotIdle) && error != Some(BadCycleCount)
    {
      hide ImageAfter, OutboxStore.InMemoryOutboxStore.Valid, OutboxStore.InMemoryOutboxStore.Recs,
        OutboxStore.InMemoryOutboxStore.Objects, ForeignTo, Project, Kept;
      var t := OutboxProtocol.Attempt(owner, data.eventId);
      tally := ProjectionRun(0, 0, 0, 0);
      ghost var start := host.store.Recs();
      Others(d.beforeRelease);
      left := host.store.Recs();
      KeptRecord(start, left, data.eventId);
      if d.stop == BeforeRelease {
        host.Crash(owner);
        return Some(Crashed), tally, left;
      }
      var reply := host.Release(t, d.code, d.retryable, d.releaseAt);
      KeptTransitive(start, left, host.store.Recs());
      KeptRecord(start, host.store.Recs(), data.eventId);
      if reply != Done { return Some(ReleaseRefused(reply)), tally, left; }
      host.store.ValidRecords();
      var state := host.store.records[data.eventId].state;
      tally := TallyOf(state);
      error := if d.releaseEvidenceFails then Some(EvidenceFailed) else None;
    }

    /** One delivery from claim to settlement. */
    method Deliver(data: OutboxData, d: Delivery)
      returns (error: Option<RunError>, tally: ProjectionRun, ghost met: Records, ghost left: Records)
      requires host.Valid() && d.Foreign(owner) && InHand(data)
      modifies host, host.store, host.store.Objects()
      ensures host.Valid()
      ensures forall o :: o in host.store.Objects() && o !in old(host.store.Objects()) ==> fresh(o)
      ensures error.None? ==> forall t: Attempt :: t.owner == owner && t in old(host.held) ==> t in host.held
      ensures Kept(old(host.store.Recs()), host.store.Recs())
      ensures data.eventId in host.store.Recs()
      ensures error.None? ==> tally == TallyOf(host.store.Recs()[data.eventId].state)
      ensures Met(old(host.store.Recs()), met, data, d) && Met(old(host.store.Recs()), left, data, d)
      ensures error.None? <==> Returns(host.cfg.spec, owner, d, met[data.eventId], left[data.eventId])
      ensures error.None? ==>
        Ended(host.cfg.threshold, host.cfg.spec, owner, d, data, old(host.store.Recs()), met, left, host.store.Recs())
      ensures error != Some(NotIdle) && error != Some(BadCycleCount)
    {
      hide ImageAfter, OutboxStore.InMemoryOutboxStore.Valid, OutboxStore.InMemoryOutboxStore.Recs,
        OutboxStore.InMemoryOutboxStore.Objects, ForeignTo, Kept, Smooth, HoldsLease, Stops, Host.Valid, Project, Met,
        Ended, WithCompletion, WithRelease, TallyOf;
      ghost var start := host.store.Recs();
      var completed, raised, stopped;
      completed, raised, stopped, met := TryDeliver(data, d);
      MetRecord(start, met, data, d);
      left := met;
      KeptRecord(start, host.store.Recs(), data.eventId);
      tally := if completed then ProjectionRun(0, 1, 0, 0) else ProjectionRun(0, 0, 0, 0);
      if stopped { return Some(Crashed), tally, met, left; }
      if raised {
        var more;
        error, more, left := HandBack(data, d, completed, start, met);
        tally := tally.Plus(more);
      } else {
        CountsOne();
        CompletedEnds(host.cfg.threshold, host.cfg.spec, owner, d, data, start, met);
        error := None;
      }
    }

    /** What `raise` leads to: a completed event cannot be handed back, so only an uncompleted delivery returns. */
    method HandBack(data: OutboxData, d: Delivery, completed: bool, ghost start: Records, ghost met: Records)
      returns (error: Option<RunError>, tally: ProjectionRun, ghost left: Records)
      requires host.Valid() && d.Foreign(owner) && InHand(data)
      requires Met(start, met, data, d) && Kept(start, host.store.Recs())
      requires completed <==> Smooth(host.cfg.spec, owner, met[data.eventId], d)
      requires host.store.Recs() == if completed then WithCompletion(met, data.eventId, d) else met
      requires if completed then d.evidenceFails else !Stops(host.cfg.spec, data, d)
      modifies host, host.store, host.store.Objects()
      ensures host.Valid()
      ensures forall o :: o in host.store.Objects() && o !in old(host.store.Objects()) ==> fresh(o)
      ensures error.None? ==> forall t: Attempt :: t.owner == owner && t in old(host.held) ==> t in host.held
      ensures Kept(start, host.store.Recs())
      ensures data.eventId in host.store.Recs() && Met(start, left, data, d)
      ensures error.None? ==> tally == TallyOf(host.store.Recs()[data.eventId].state)
      ensures error.None? <==> Returns(host.cfg.spec, owner, d, met[data.eventId], left[data.eventId])
      ensures error.None? ==>
        Ended(host.cfg.threshold, host.cfg.spec, owner, d, data, start, met, left, host.store.Recs())
      ensures error != Some(NotIdle) && error != Some(BadCycleCount)
    {
      hide ImageAfter, OutboxStore.InMemoryOutboxStore.Valid, OutboxStore.InMemoryOutboxStore.Recs,
        OutboxStore.InMemoryOutboxStore.Objects, ForeignTo, Kept, Smooth, HoldsLease, Stops, Host.Valid, Project, Met,
        Ended, WithCompletion, WithRelease, TallyOf;
      ghost var before := host.store.Recs();
      if completed { CompletedEnds(host.cfg.threshold, host.cfg.spec, owner, d, data, start, met); }
      MetRecord(start, met, data, d);
      ghost var released;
      error, tally, released := Recover(data, d);
      MetRecord(before, released, data, d);
      KeptTransitive(start, before, host.store.Recs());
      left := met;
      if completed {
        KeptRecord(before, released, data.eventId);
        CompletedIsLost(released[data.eventId], owner, d.releaseAt);
      } else {
        MetLater(start, before, released, data, d);
        left := released;
        ReleasedEnds(host.cfg.threshold, host.cfg.spec, owner, d, data, start, met, left);
      }
    }

    ghost function Own(plan: Plan): Terms
    {
      Terms(host.cfg.threshold, host.cfg.spec, owner, plan)
    }

    /** The next delivery of a claimed batch. */
    method DeliverNext(claimed: seq<Record>, k: nat, plan: Plan, ghost leased: Records, ghost ids: seq<string>,
                       ghost outcomes: seq<State>, ghost meetings: seq<Meeting>, ghost quiet: bool)
      returns (error: Option<RunError>, tally: ProjectionRun, ghost outcome: State, ghost m: Meeting)
      requires host.Valid() && ForeignPlan(owner, plan) && (quiet ==> QuietPlan(plan))
      requires Claims(leased, claimed, ids) && k == |outcomes| < |ids| == |claimed| && HeldAll(owner, ids, host.held)
      requires Delivered(Own(plan), leased, host.store.Recs(), ids, outcomes, meetings, quiet)
      modifies host, host.store, host.store.Objects()
      ensures host.Valid()
      ensures forall o :: o in host.store.Objects() && o !in old(host.store.Objects()) ==> fresh(o)
      ensures error.None? ==> HeldAll(owner, ids, host.held) && tally == TallyOf(outcome)
      ensures error.None? ==>
        Delivered(Own(plan), leased, host.store.Recs(), ids, outcomes + [outcome], meetings + [m], quiet)
      ensures error.Some? ==> Broke(Own(plan), leased, ids, meetings + [m], quiet)
      ensures error != Some(NotIdle) && error != Some(BadCycleCount)
    {
      hide ImageAfter, OutboxStore.InMemoryOutboxStore.Valid, OutboxStore.InMemoryOutboxStore.Recs,
        OutboxStore.InMemoryOutboxStore.Objects, ForeignTo, Kept, Claims, Delivered, HeldAll, Returns, Leaves, Broke;
      ghost var before, hands := host.store.Recs(), host.held;
      BatchEntry(Own(plan), leased, claimed, ids, before, outcomes, meetings, quiet, owner, hands);
      QuietEntry(plan, claimed[k].data);
      ghost var met, left;
      error, tally, met, left := Deliver(claimed[k].data, plan(claimed[k].data));
      outcome, m := host.store.Recs()[ids[k]].state, Meeting(met[ids[k]], left[ids[k]]);
      KeptRecord(before, met, ids[k]);
      KeptRecord(before, left, ids[k]);
      if error.None? {
        StaysInHand(owner, ids, hands, host.held);
        DeliveredStep(Own(plan), leased, before, host.store.Recs(), ids, outcomes, meetings, m, quiet);
      } else {
        BreaksHere(Own(plan), leased, before, ids, outcomes, meetings, m, quiet);
      }
    }

    /** The deliveries of a claimed batch, in order, until one of them raises. */
    method DeliverAll(claimed: seq<Record>, plan: Plan, ghost leased: Records, ghost ids: seq<string>,
                      ghost quiet: bool)
      returns (error: Option<RunError>, run: ProjectionRun, ghost outcomes: seq<State>, ghost meetings: seq<Meeting>)
      requires host.Valid() && ForeignPlan(owner, plan) && (quiet ==> QuietPlan(plan))
      requires Claims(leased, claimed, ids) && |ids| == |claimed| && HeldAll(owner, ids, host.held)
      requires host.store.Recs() == leased
      modifies host, host.store, host.store.Objects()
      ensures host.Valid()
      ensures forall o :: o in host.store.Objects() && o !in old(host.store.Objects()) ==> fresh(o)
      ensures claimed == [] ==> error.None? && host.store.Recs() == leased
      ensures error.None? ==> |outcomes| == |ids| && run == ProjectionRun(|ids|, 0, 0, 0).Plus(Sum(outcomes))
      ensures error.None? ==> Delivered(Own(plan), leased, host.store.Recs(), ids, outcomes, meetings, quiet)
      ensures error.Some? ==> Broke(Own(plan), leased, ids, meetings, quiet)
      ensures error != Some(NotIdle) && error != Some(BadCycleCount)
    {
      hide ImageAfter, OutboxStore.InMemoryOutboxStore.Valid, OutboxStore.InMemoryOutboxStore.Recs,
        OutboxStore.InMemoryOutboxStore.Objects, ForeignTo, Claims, Delivered, HeldAll, QuietPlan, Sum, TallyOf,
        Host.Valid, Broke;
      error, run, outcomes, meetings := None, ProjectionRun(|claimed|, 0, 0, 0), [], [];
      NoneDelivered(Own(plan), leased, claimed, ids, quiet);
      SumStep([], Pending, run);
      for k := 0 to |claimed|
        invariant host.Valid()
        invariant forall o :: o in host.store.Objects() && o !in old(host.store.Objects()) ==> fresh(o)
        invariant error.None? && |outcomes| == k && HeldAll(owner, ids, host.held)
        invariant run == ProjectionRun(|ids|, 0, 0, 0).Plus(Sum(outcomes))
        invariant Delivered(Own(plan), leased, host.store.Recs(), ids, outcomes, meetings, quiet)
        invariant k == 0 ==> host.store.Recs() == leased
      {
        var tally; ghost var outcome, m;
        error, tally, outcome, m := DeliverNext(claimed, k, plan, leased, ids, outcomes, meetings, quiet);
        meetings := meetings + [m];
        if error.Some? { return; }
        SumStep(outcomes, outcome, ProjectionRun(|ids|, 0, 0, 0));
        run := run.Plus(tally);
        outcomes := outcomes + [outcome];
      }
    }

    /**
     * One cycle: claim a batch, deliver every record of it. It returns exactly when every delivery does; then each
     * claimed record was left as its delivery says and is counted.
     */
    method RunOnce(claimAt: int, plan: Plan)
      returns (error: Option<RunError>, run: ProjectionRun, ghost ids: seq<string>, ghost outcomes: seq<State>,
               ghost meetings: seq<Meeting>)
      requires host.Valid() && Ready() && ForeignPlan(owner, plan)
      modifies host, host.store, host.store.Objects()
      ensures host.Valid()
      ensures forall o :: o in host.store.Objects() && o !in old(host.store.Objects()) ==> fresh(o)
      ensures ids == ClaimIds(old(host.store.Recs()), batchSize, claimAt)
      ensures |ids| == 0 ==> error.None? && host.store.Recs() == old(host.store.Recs())
      ensures error.None? ==> run == ProjectionRun(|ids|, 0, 0, 0).Plus(Sum(outcomes))
      ensures error.None? ==> run.claimed == |ids| == run.completed + run.retryable + run.quarantined
      ensures error.None? ==> Accounted(host.store.Recs(), ids, outcomes)
      ensures error.None? ==>
        Attended(Own(plan), LeaseAll(old(host.store.Recs()), ids, owner, claimAt, leaseSeconds), ids, outcomes,
                 meetings, QuietPlan(plan))
      ensures error.Some? ==>
        Broke(Own(plan), LeaseAll(old(host.store.Recs()), ids, owner, claimAt, leaseSeconds), ids, meetings,
              QuietPlan(plan))
      ensures QuietPlan(plan) ==>
        (error.None?
         <==> AllReturn(Own(plan), LeaseAll(old(host.store.Recs()), ids, owner, claimAt, leaseSeconds), ids))
      ensures error.None? && QuietPlan(plan) ==>
        && Cycle(Own(plan), claimAt, leaseSeconds, old(host.store.Recs()), host.store.Recs(), ids, outcomes)
        && |ids| + Owed(host.cfg.threshold, host.store.Recs()) <= Owed(host.cfg.threshold, old(host.store.Recs()))
      ensures |ids| == 0 ==> AllBlocked(host.store.Recs(), claimAt) && WellFormed(host.store.Recs())
      ensures QuietPlan(plan) && AllBack(Own(plan), old(host.store.Recs()), claimAt + leaseSeconds) ==> error.None?
      ensures error != Some(NotIdle) && error != Some(BadCycleCount)
    {
      hide ImageAfter, OutboxStore.InMemoryOutboxStore.Valid, OutboxStore.InMemoryOutboxStore.Recs,
        OutboxStore.InMemoryOutboxStore.Objects, ForeignTo, Kept, ClaimIds, LeaseAll, Attempts, WellFormed, Progress,
        Cycle, Claims, Accounted, Delivered, HeldAll, QuietPlan, OutboxStore.LeaseSnapshots, Sum, Owed, AllBlocked,
        AllBack, AllReturn, Attended, Broke;
      ghost var before, quiet := host.store.Recs(), QuietPlan(plan);
      host.store.ValidRecords();
      NothingToClaim(before, batchSize, claimAt);
      var claimed;
      claimed, ids := host.Claim(owner, batchSize, leaseSeconds, claimAt);
      ClaimedBatch(before, batchSize, claimAt, owner, leaseSeconds, claimed, ids);
      InHandAll(owner, ids, host.held);
      ghost var leased := host.store.Recs();
      BackMeansReturn(Own(plan), before, ids, claimAt, leaseSeconds);
      error, run, outcomes, meetings := DeliverAll(claimed, plan, leased, ids, quiet);
      if error.None? {
        BatchDone(Own(plan), before, batchSize, claimAt, leaseSeconds, host.store.Recs(), ids, outcomes, meetings,
                  quiet);
        if quiet { CyclePays(Own(plan), claimAt, leaseSeconds, before, host.store.Recs(), ids, outcomes); }
      } else if quiet {
        BrokeMeansNot(Own(plan), leased, ids, meetings);
      }
    }

    /**
     * Cycles until one claims nothing. It gives up only when other parties keep making work or `maxCycles` is no larger
     * than the attempts the store still owes.
     */
    method RunUntilIdle(maxCycles: int, claimAt: nat -> int, plans: nat -> Plan)
      returns (error: Option<RunError>, total: ProjectionRun, cycles: nat)
      requires host.Valid() && Ready() && forall n: nat :: ForeignPlan(owner, plans(n))
      modifies host, host.store, host.store.Objects()
      ensures host.Valid()
      ensures forall o :: o in host.store.Objects() && o !in old(host.store.Objects()) ==> fresh(o)
      ensures error == Some(BadCycleCount) <==> maxCycles < 1
      ensures error.None? ==> total.claimed == total.completed + total.retryable + total.quarantined
      ensures error.None? ==> AllBlocked(host.store.Recs(), claimAt(cycles))
      ensures error == Some(NotIdle) ==> cycles == maxCycles && total.claimed >= cycles
      ensures error.Some? && error != Some(NotIdle) && error != Some(BadCycleCount) ==>
        BrokeIn(plans(cycles), claimAt(cycles))
      ensures error.None? && QuietPlans(plans) ==>
        total.claimed + Owed(host.cfg.threshold, host.store.Recs()) <= Owed(host.cfg.threshold, old(host.store.Recs()))
      ensures error.None? && QuietPlans(plans) ==>
        Idle(old(host.store.Recs()), host.store.Recs(), claimAt(cycles), Going(plans, claimAt, old(host.store.Recs())))
      ensures QuietPlans(plans) && maxCycles > Owed(host.cfg.threshold, old(host.store.Recs())) ==>
        error != Some(NotIdle)
      ensures Returning(plans, claimAt, old(host.store.Recs())) ==> error in {None, Some(NotIdle), Some(BadCycleCount)}
    {
      hide ImageAfter, OutboxStore.InMemoryOutboxStore.Valid, OutboxStore.InMemoryOutboxStore.Recs,
        OutboxStore.InMemoryOutboxStore.Objects, ForeignPlan, ClaimIds, Cycle, Accounted, QuietPlans, QuietPlan, Owed,
        Host.Valid, AllBlocked, Sum, Worked, AllGo, AllBack, Going, Returning, Idle, WellFormed, AllReturn, Attended,
        Broke, LeaseAll;
      total, cycles := ProjectionRun(0, 0, 0, 0), 0;
      if maxCycles < 1 { return Some(BadCycleCount), total, cycles; }
      ghost var start, quiet := Owed(host.cfg.threshold, host.store.Recs()), QuietPlans(plans);
      ghost var first := host.store.Recs();
      ghost var going := quiet && Going(plans, claimAt, first);
      ghost var returning := Returning(plans, claimAt, first);
      NothingWorked(first, going);
      GoingIsQuiet(plans, claimAt, first);
      while cycles < maxCycles
        invariant host.Valid() && cycles <= maxCycles
        invariant forall o :: o in host.store.Objects() && o !in old(host.store.Objects()) ==> fresh(o)
        invariant total.Balanced() && total.claimed >= cycles
        invariant quiet ==> total.claimed + Owed(host.cfg.threshold, host.store.Recs()) <= start
        invariant quiet ==> Worked(first, host.store.Recs(), going)
      {
        QuietPlansEntry(plans, cycles);
        ghost var before := host.store.Recs();
        if going { StillGoing(plans, claimAt, first, before, cycles); }
        if returning { StillReturning(plans, claimAt, first, before, cycles, going); }
        var run; ghost var ids, outcomes, meetings;
        error, run, ids, outcomes, meetings := RunOnce(claimAt(cycles), plans(cycles));
        if error.Some? {
          assert BrokeIn(plans(cycles), claimAt(cycles));
          return;
        }
        total := total.Plus(run);
        if quiet {
          CycleWorks(Own(plans(cycles)), claimAt(cycles), leaseSeconds, before, host.store.Recs(), ids, outcomes,
                     going);
          WorkedThen(first, before, host.store.Recs(), going);
        }
        if run.claimed == 0 {
          if quiet { IdleAfter(first, host.store.Recs(), claimAt(cycles), going); }
          return None, total, cycles;
        }
        cycles := cycles + 1;
      }
      error := Some(NotIdle);
    }

    /** In a cycle with this claim and this plan a delivery did not return. */
    ghost predicate BrokeIn(plan: Plan, at: int)
    {
      exists records: Records, ids, meetings ::
        Broke(Own(plan), LeaseAll(records, ids, owner, at, leaseSeconds), ids, meetings, QuietPlan(plan))
    }

    /** Nobody interferes, and in every cycle whatever is claimed of these records is delivered without a hitch. */
    ghost predicate Going(plans: nat -> Plan, claimAt: nat -> int, records: Records)
    {
      QuietPlans(plans) && forall n: nat :: AllGo(Own(plans(n)), records, claimAt(n) + leaseSeconds)
    }

    /** Nobody interferes, and in every cycle the delivery of whatever is claimed of these records returns. */
    ghost predicate Returning(plans: nat -> Plan, claimAt: nat -> int, records: Records)
    {
      QuietPlans(plans) && forall n: nat :: AllBack(Own(plans(n)), records, claimAt(n) + leaseSeconds)
    }

    lemma GoingIsQuiet(plans: nat -> Plan, claimAt: nat -> int, records: Records)
      ensures Returning(plans, claimAt, records) ==> QuietPlans(plans)
      ensures Going(plans, claimAt, records) ==> Returning(plans, claimAt, records)
    {
      hide Goes;
      if Going(plans, claimAt, records) {
        forall n: nat ensures AllBack(Own(plans(n)), records, claimAt(n) + leaseSeconds) {
          assert AllGo(Own(plans(n)), records, claimAt(n) + leaseSeconds);
        }
      }
    }

    lemma StillReturning(plans: nat -> Plan, claimAt: nat -> int, first: Records, before: Records, n: nat, going: bool)
      requires Returning(plans, claimAt, first) && Worked(first, before, going)
      ensures AllBack(Own(plans(n)), before, claimAt(n) + leaseSeconds) && QuietPlan(plans(n))
    {
      hide ReturnsBy;
      assert AllBack(Own(plans(n)), first, claimAt(n) + leaseSeconds);
    }

    lemma StillGoing(plans: nat -> Plan, claimAt: nat -> int, first: Records, before: Records, n: nat)
      requires Going(plans, claimAt, first) && Worked(first, before, true)
      ensures AllGo(Own(plans(n)), before, claimAt(n) + leaseSeconds) && QuietPlan(plans(n))
    {
      hide Goes;
      assert AllGo(Own(plans(n)), first, claimAt(n) + leaseSeconds);
    }
  }

  /** The counter a finished delivery adds to. */
  function TallyOf(state: State): ProjectionRun
  {
    match state
    case Completed => ProjectionRun(0, 1, 0, 0)
    case Quarantined => ProjectionRun(0, 0, 0, 1)
    case _ => ProjectionRun(0, 0, 1, 0)
  }

  predicate SettledState(state: State)
  {
    state.Completed? || state.Quarantined? || state.Retryable?
  }

  /** What a worker does by itself: its threshold and specification, its name, and how each of its deliveries goes. */
  datatype Terms = Terms(threshold: nat, spec: Spec, owner: string, plan: Plan)

  /** What a delivery nobody interferes with leaves of a leased record. */
  predicate Settles(terms: Terms, before: Record, after: Record)
  {
    var d := terms.plan(before.data);
    && Returns(terms.spec, terms.owner, d, before, before)
    && Leaves(terms.threshold, terms.spec, terms.owner, d, before, before, after)
  }

  /** The record as a delivery met it, when it came to complete it and when it came to release it. */
  datatype Meeting = Meeting(met: Record, left: Record)

  /** Others may have moved the record on in between; if nobody interferes it is as it was leased. */
  ghost predicate MetAs(leased: Records, id: string, m: Meeting, quiet: bool)
  {
    && id in leased && Evolves(leased[id], m.met) && Evolves(leased[id], m.left)
    && (quiet ==> m == Meeting(leased[id], leased[id]))
  }

  predicate ReturnsFrom(terms: Terms, m: Meeting)
  {
    Returns(terms.spec, terms.owner, terms.plan(m.met.data), m.met, m.left)
  }

  /** Completed if it goes smoothly, else retryable if the failure is and attempts are left, else quarantined. */
  function OutcomeOf(terms: Terms, m: Meeting): State
  {
    var d := terms.plan(m.met.data);
    if Smooth(terms.spec, terms.owner, m.met, d) then Completed
    else if d.retryable && m.left.attemptCount < terms.threshold then Retryable
    else Quarantined
  }

  /** Every delivery of the batch returned, with this outcome. */
  ghost predicate Attended(terms: Terms, leased: Records, ids: seq<string>, outcomes: seq<State>,
                           meetings: seq<Meeting>, quiet: bool)
  {
    && |outcomes| == |meetings| <= |ids|
    && forall k :: 0 <= k < |meetings| ==>
         && MetAs(leased, ids[k], meetings[k], quiet) && ReturnsFrom(terms, meetings[k])
         && outcomes[k] == OutcomeOf(terms, meetings[k])
  }

  /** The deliveries returned one after the other until the last of these did not. */
  ghost predicate Broke(terms: Terms, leased: Records, ids: seq<string>, meetings: seq<Meeting>, quiet: bool)
  {
    && 0 < |meetings| <= |ids|
    && forall k :: 0 <= k < |meetings| ==>
         && MetAs(leased, ids[k], meetings[k], quiet)
         && (ReturnsFrom(terms, meetings[k]) <==> k < |meetings| - 1)
  }

  /** With nobody interfering, every delivery of the batch returns. */
  ghost predicate AllReturn(terms: Terms, leased: Records, ids: seq<string>)
  {
    forall k :: 0 <= k < |ids| ==> ids[k] in leased && ReturnsFrom(terms, Meeting(leased[ids[k]], leased[ids[k]]))
  }

  lemma BrokeMeansNot(terms: Terms, leased: Records, ids: seq<string>, meetings: seq<Meeting>)
    requires Broke(terms, leased, ids, meetings, true)
    ensures !AllReturn(terms, leased, ids)
  {
    hide Returns;
    var k := |meetings| - 1;
    assert MetAs(leased, ids[k], meetings[k], true) && !ReturnsFrom(terms, meetings[k]);
  }

  lemma BreaksHere(terms: Terms, leased: Records, records: Records, ids: seq<string>, outcomes: seq<State>,
                   meetings: seq<Meeting>, m: Meeting, quiet: bool)
    requires Delivered(terms, leased, records, ids, outcomes, meetings, quiet) && |outcomes| < |ids|
    requires ids[|outcomes|] in records
    requires Evolves(records[ids[|outcomes|]], m.met) && Evolves(records[ids[|outcomes|]], m.left)
    requires quiet ==> m == Meeting(records[ids[|outcomes|]], records[ids[|outcomes|]])
    requires !ReturnsFrom(terms, m)
    ensures Broke(terms, leased, ids, meetings + [m], quiet)
  {
    hide Returns, Accounted, SettledAs, Kept, Claims, Progress, MetAs, ReturnsFrom, OutcomeOf, Evolves;
    MetNext(terms, leased, records, ids, outcomes, meetings, m, quiet);
  }

  /** The next delivery of a batch meets its record as it was leased, or as others have moved it on. */
  lemma MetNext(terms: Terms, leased: Records, records: Records, ids: seq<string>, outcomes: seq<State>,
                meetings: seq<Meeting>, m: Meeting, quiet: bool)
    requires Delivered(terms, leased, records, ids, outcomes, meetings, quiet) && |outcomes| < |ids|
    requires ids[|outcomes|] in records
    requires Evolves(records[ids[|outcomes|]], m.met) && Evolves(records[ids[|outcomes|]], m.left)
    requires quiet ==> m == Meeting(records[ids[|outcomes|]], records[ids[|outcomes|]])
    ensures MetAs(leased, ids[|outcomes|], m, quiet)
  {
    hide Returns, Accounted, SettledAs, Attended;
    var k := |outcomes|;
    assert ids[k] in leased;
    KeptRecord(leased, records, ids[k]);
    if quiet { assert ids[k] !in ids[..k]; }
  }

  function Sum(outcomes: seq<State>): (run: ProjectionRun)
    ensures run.claimed == 0 && run.completed + run.retryable + run.quarantined == |outcomes|
  {
    if outcomes == [] then ProjectionRun(0, 0, 0, 0)
    else Sum(outcomes[..|outcomes| - 1]).Plus(TallyOf(outcomes[|outcomes| - 1]))
  }

  /** Each outcome is counted once, under its own name. */
  lemma {:induction false} SumCounts(outcomes: seq<State>)
    requires forall o :: o in outcomes ==> SettledState(o)
    ensures Sum(outcomes).completed == multiset(outcomes)[Completed]
    ensures Sum(outcomes).retryable == multiset(outcomes)[Retryable]
    ensures Sum(outcomes).quarantined == multiset(outcomes)[Quarantined]
  {
    if outcomes != [] {
      var init, last := outcomes[..|outcomes| - 1], outcomes[|outcomes| - 1];
      assert outcomes == init + [last];
      SumCounts(init);
      assert SettledState(last);
    }
  }

  lemma SumStep(outcomes: seq<State>, outcome: State, base: ProjectionRun)
    ensures base.Plus(Sum(outcomes)).Plus(TallyOf(outcome)) == base.Plus(Sum(outcomes + [outcome]))
    ensures base.Plus(Sum([])) == base
  {
    assert (outcomes + [outcome])[..|outcomes|] == outcomes;
  }

  /** What was counted as completed is completed, now and from now on. */
  ghost predicate Accounted(records: Records, ids: seq<string>, outcomes: seq<State>)
  {
    |outcomes| == |ids| && forall k :: 0 <= k < |ids| ==>
      ids[k] in records && SettledState(outcomes[k]) && (outcomes[k].Completed? ==> records[ids[k]].state.Completed?)
  }

  lemma AccountedStep(before: Records, after: Records, ids: seq<string>, outcomes: seq<State>, id: string)
    requires Accounted(before, ids, outcomes) && Kept(before, after) && id in after && SettledState(after[id].state)
    ensures Accounted(after, ids + [id], outcomes + [after[id].state])
  {
  }

  /** The claimed batch: distinct records, each handed over with its own data. */
  ghost predicate Claims(records: Records, claimed: seq<Record>, ids: seq<string>)
  {
    && |claimed| == |ids|
    && (forall k :: 0 <= k < |ids| ==>
          ids[k] in records && claimed[k] == records[ids[k]] && claimed[k].data.eventId == ids[k])
    && Distinct(ids)
  }

  lemma ClaimedBatch(records: Records, limit: nat, at: int, owner: string, duration: int, claimed: seq<Record>,
                     ids: seq<string>)
    requires WellFormed(records) && ids == ClaimIds(records, limit, at)
    requires claimed == OutboxStore.LeaseSnapshots(records, ids, owner, at, duration)
    ensures Claims(LeaseAll(records, ids, owner, at, duration), claimed, ids)
    ensures ids == [] ==> LeaseAll(records, ids, owner, at, duration) == records
  {
    OutboxClaims.ClaimContract(records, limit, at);
    BeforeIsTotal();
    forall k | 0 <= k < |ids|
      ensures claimed[k].data.eventId == ids[k]
    {
      assert RecordWellFormed(ids[k], records[ids[k]]);
    }
  }

  ghost predicate ForeignPlan(owner: string, plan: Plan)
  {
    forall data :: plan(data).Foreign(owner)
  }

  ghost predicate QuietPlan(plan: Plan)
  {
    forall data :: plan(data).Quiet()
  }

  lemma QuietEntry(plan: Plan, data: OutboxData)
    ensures QuietPlan(plan) ==> plan(data).Quiet()
  {
  }

  ghost predicate HeldAll(owner: string, ids: seq<string>, held: set<Attempt>)
  {
    forall j :: 0 <= j < |ids| ==> OutboxProtocol.Attempt(owner, ids[j]) in held
  }

  lemma InHandAll(owner: string, ids: seq<string>, held: set<Attempt>)
    requires Attempts(owner, ids) <= held
    ensures HeldAll(owner, ids, held)
  {
  }

  lemma StaysInHand(owner: string, ids: seq<string>, before: set<Attempt>, after: set<Attempt>)
    requires HeldAll(owner, ids, before) && forall t: Attempt :: t.owner == owner && t in before ==> t in after
    ensures HeldAll(owner, ids, after)
  {
  }

  /** The state of a cycle after its first `|outcomes|` deliveries. */
  ghost predicate Delivered(terms: Terms, leased: Records, records: Records, ids: seq<string>, outcomes: seq<State>,
                            meetings: seq<Meeting>, quiet: bool)
  {
    && |outcomes| <= |ids| && Kept(leased, records) && Accounted(records, ids[..|outcomes|], outcomes)
    && (exists claimed :: Claims(leased, claimed, ids))
    && Attended(terms, leased, ids, outcomes, meetings, quiet)
    && (quiet ==> Progress(terms, leased, records, ids, outcomes))
  }

  lemma NoneDelivered(terms: Terms, leased: Records, claimed: seq<Record>, ids: seq<string>, quiet: bool)
    requires Claims(leased, claimed, ids)
    ensures Delivered(terms, leased, leased, ids, [], [], quiet)
  {
    KeptReflexive(leased);
  }

  lemma BatchEntry(terms: Terms, leased: Records, claimed: seq<Record>, ids: seq<string>, records: Records,
                   outcomes: seq<State>, meetings: seq<Meeting>, quiet: bool, owner: string, held: set<Attempt>)
    requires Delivered(terms, leased, records, ids, outcomes, meetings, quiet) && HeldAll(owner, ids, held)
    requires Claims(leased, claimed, ids) && |outcomes| < |ids|
    ensures var k := |outcomes|;
      && claimed[k].data.eventId == ids[k] && ids[k] in records && records[ids[k]].data == claimed[k].data
      && OutboxProtocol.Attempt(owner, ids[k]) in held
  {
    hide Attended, Accounted, Progress;
    KeptRecord(leased, records, ids[|outcomes|]);
  }

  lemma DeliveredStep(terms: Terms, leased: Records, before: Records, after: Records, ids: seq<string>,
                      outcomes: seq<State>, meetings: seq<Meeting>, m: Meeting, quiet: bool)
    requires Delivered(terms, leased, before, ids, outcomes, meetings, quiet) && |outcomes| < |ids|
    requires Kept(before, after)
    requires ids[|outcomes|] in before && ids[|outcomes|] in after
    requires Evolves(before[ids[|outcomes|]], m.met) && Evolves(before[ids[|outcomes|]], m.left)
    requires quiet ==> m == Meeting(before[ids[|outcomes|]], before[ids[|outcomes|]])
    requires ReturnsFrom(terms, m)
    requires Leaves(terms.threshold, terms.spec, terms.owner, terms.plan(m.met.data), m.met, m.left,
                    after[ids[|outcomes|]])
    requires quiet ==> after == before[ids[|outcomes|] := after[ids[|outcomes|]]]
    ensures Delivered(terms, leased, after, ids, outcomes + [after[ids[|outcomes|]].state], meetings + [m], quiet)
  {
    hide Kept, Accounted, Progress, Claims, Returns, Smooth, Attended;
    var k := |outcomes|;
    KeptTransitive(leased, before, after);
    AccountedStep(before, after, ids[..k], outcomes, ids[k]);
    assert ids[..k + 1] == ids[..k] + [ids[k]];
    MetNext(terms, leased, before, ids, outcomes, meetings, m, quiet);
    AttendedStep(terms, leased, ids, outcomes, meetings, after[ids[k]].state, m, quiet);
    if quiet { ProgressStep(terms, leased, before, after, ids, outcomes); }
  }

  lemma AttendedStep(terms: Terms, leased: Records, ids: seq<string>, outcomes: seq<State>, meetings: seq<Meeting>,
                     outcome: State, m: Meeting, quiet: bool)
    requires Attended(terms, leased, ids, outcomes, meetings, quiet) && |outcomes| < |ids|
    requires MetAs(leased, ids[|outcomes|], m, quiet) && ReturnsFrom(terms, m) && outcome == OutcomeOf(terms, m)
    ensures Attended(terms, leased, ids, outcomes + [outcome], meetings + [m], quiet)
  {
  }

  lemma BatchDone(terms: Terms, records: Records, limit: nat, at: int, duration: int, after: Records, ids: seq<string>,
                  outcomes: seq<State>, meetings: seq<Meeting>, quiet: bool)
    requires ids == ClaimIds(records, limit, at) && |outcomes| == |ids|
    requires Delivered(terms, LeaseAll(records, ids, terms.owner, at, duration), after, ids, outcomes, meetings, quiet)
    ensures Accounted(after, ids, outcomes)
    ensures Attended(terms, LeaseAll(records, ids, terms.owner, at, duration), ids, outcomes, meetings, quiet)
    ensures quiet ==> Cycle(terms, at, duration, records, after, ids, outcomes)
    ensures quiet ==> AllReturn(terms, LeaseAll(records, ids, terms.owner, at, duration), ids)
  {
    hide Kept, Accounted, Progress, Cycle, ClaimIds, LeaseAll, Claims, ReturnsFrom;
    assert ids[..|ids|] == ids;
    if quiet { CycleDone(terms, records, limit, at, duration, after, ids, outcomes); }
  }

  /** With nobody interfering, a cycle has settled its first records and touched nothing else. */
  ghost predicate Progress(terms: Terms, leased: Records, records: Records, ids: seq<string>, outcomes: seq<State>)
  {
    && |outcomes| <= |ids| && records.Keys == leased.Keys
    && Distinct(ids)
    && (forall id :: id in leased && id !in ids[..|outcomes|] ==> records[id] == leased[id])
    && (forall k :: 0 <= k < |outcomes| ==> SettledAs(terms, leased, records, ids[k], outcomes[k]))
  }

  ghost predicate SettledAs(terms: Terms, leased: Records, records: Records, id: string, outcome: State)
  {
    id in leased && id in records && records[id].state == outcome && Settles(terms, leased[id], records[id])
  }

  /** A delivery of a fresh lease returns: without a hitch, or its failure is handed back before the lease runs out. */
  predicate ReturnsBy(spec: Spec, data: OutboxData, d: Delivery, expiresAt: int)
  {
    if Goes(spec, data, d, expiresAt) then d.Clean()
    else !Stops(spec, data, d) && d.stop != BeforeRelease && d.releaseAt < expiresAt && !d.releaseEvidenceFails
  }

  /** Whatever is claimed, its delivery returns. */
  ghost predicate AllBack(terms: Terms, records: Records, expiresAt: int)
  {
    forall id :: id in records ==> ReturnsBy(terms.spec, records[id].data, terms.plan(records[id].data), expiresAt)
  }

  /** Whatever is claimed is delivered without a hitch before its lease runs out. */
  ghost predicate AllGo(terms: Terms, records: Records, expiresAt: int)
  {
    forall id :: id in records ==>
      var d := terms.plan(records[id].data);
      d.Clean() && Goes(terms.spec, records[id].data, d, expiresAt)
  }

  lemma BackMeansReturn(terms: Terms, records: Records, ids: seq<string>, at: int, duration: int)
    requires forall id :: id in ids ==> id in records
    ensures AllBack(terms, records, at + duration) ==>
      AllReturn(terms, LeaseAll(records, ids, terms.owner, at, duration), ids)
  {
    hide Goes;
    if AllBack(terms, records, at + duration) {
      forall k | 0 <= k < |ids|
        ensures ids[k] in records
        ensures ReturnsBy(terms.spec, records[ids[k]].data, terms.plan(records[ids[k]].data), at + duration)
      {
        assert ids[k] in ids;
      }
    }
  }

  lemma ProgressStep(terms: Terms, leased: Records, before: Records, after: Records, ids: seq<string>,
                     outcomes: seq<State>)
    requires Progress(terms, leased, before, ids, outcomes) && |outcomes| < |ids|
    requires var id := ids[|outcomes|];
      id in before && id in after && after == before[id := after[id]] && Settles(terms, before[id], after[id])
    ensures Progress(terms, leased, after, ids, outcomes + [after[ids[|outcomes|]].state])
  {
    hide Settles;
    var k := |outcomes|;
    assert ids[k] !in ids[..k];
  }

  /** A whole undisturbed cycle: the claimed records made one attempt each and are settled, the rest is untouched. */
  ghost predicate Cycle(terms: Terms, at: int, duration: int, before: Records, after: Records, ids: seq<string>,
                        outcomes: seq<State>)
  {
    && |outcomes| == |ids| && after.Keys == before.Keys
    && Distinct(ids)
    && (forall id :: id in before && id !in ids ==> after[id] == before[id])
    && (forall k :: 0 <= k < |ids| ==> Attempted(terms, at, duration, before, after, ids[k], outcomes[k]))
  }

  ghost predicate Attempted(terms: Terms, at: int, duration: int, before: Records, after: Records, id: string,
                            outcome: State)
  {
    && id in before && id in after && !before[id].state.Completed? && !before[id].state.Quarantined?
    && after[id].state == outcome && Settles(terms, Leasing(before[id], terms.owner, at, duration), after[id])
  }

  lemma CycleDone(terms: Terms, records: Records, limit: nat, at: int, duration: int,
                  after: Records, ids: seq<string>, outcomes: seq<State>)
    requires ids == ClaimIds(records, limit, at) && |outcomes| == |ids|
    requires Progress(terms, LeaseAll(records, ids, terms.owner, at, duration), after, ids, outcomes)
    ensures Cycle(terms, at, duration, records, after, ids, outcomes)
  {
    hide ClaimIds, Claimable, SettledAs, Attempted;
    ClaimedAreClaimable(records, limit, at);
    assert ids[..|ids|] == ids;
    forall k | 0 <= k < |ids| ensures Attempted(terms, at, duration, records, after, ids[k], outcomes[k]) {
      AttemptDone(terms, records, at, duration, after, ids, ids[k], outcomes[k]);
    }
  }

  /** A claimed record that has been settled has used one attempt. */
  lemma AttemptDone(terms: Terms, records: Records, at: int, duration: int, after: Records, ids: seq<string>,
                    id: string,
                    outcome: State)
    requires Claimable(records, id, at) && id in ids
    requires SettledAs(terms, LeaseAll(records, ids, terms.owner, at, duration), after, id, outcome)
    ensures Attempted(terms, at, duration, records, after, id, outcome)
  {
    hide Goes;
  }

  // ------------------------------------------------------------ idleness

  ghost predicate QuietPlans(plans: nat -> Plan)
  {
    forall n: nat :: QuietPlan(plans(n))
  }

  lemma QuietPlansEntry(plans: nat -> Plan, n: nat)
    ensures QuietPlans(plans) ==> QuietPlan(plans(n))
  {
  }

  ghost predicate AllBlocked(records: Records, at: int)
  {
    forall head :: head in records && IsHead(records, head) ==> OutboxClaims.Blocked(records[head], at)
  }

  lemma NothingToClaim(records: Records, limit: nat, at: int)
    requires WellFormed(records) && limit >= 1
    ensures ClaimIds(records, limit, at) == [] ==> AllBlocked(records, at)
  {
    if ClaimIds(records, limit, at) == [] {
      forall head | head in records && IsHead(records, head)
        ensures OutboxClaims.Blocked(records[head], at)
      {
        OutboxClaims.ShortClaimMeansBlocked(records, limit, at, head);
      }
    }
  }

  /**
   * What undisturbed cycles leave: a record is as it was, or settled, or even completed if every delivery goes well.
   */
  ghost predicate Worked(before: Records, after: Records, going: bool)
  {
    && after.Keys == before.Keys
    && forall id :: id in before ==> after[id] == before[id] || Moved(before[id], after[id], going)
  }

  predicate Moved(before: Record, after: Record, going: bool)
  {
    after.data == before.data && SettledState(after.state) && (going ==> after.state.Completed?)
  }

  lemma NothingWorked(records: Records, going: bool)
    ensures Worked(records, records, going)
  {
  }

  lemma WorkedThen(a: Records, b: Records, c: Records, going: bool)
    requires Worked(a, b, going) && Worked(b, c, going)
    ensures Worked(a, c, going)
  {
  }

  lemma CycleWorks(terms: Terms, at: int, duration: int, before: Records, after: Records, ids: seq<string>,
                   outcomes: seq<State>, going: bool)
    requires Cycle(terms, at, duration, before, after, ids, outcomes)
    requires going ==> AllGo(terms, before, at + duration)
    ensures Worked(before, after, going)
  {
    hide Goes;
    forall id | id in before ensures after[id] == before[id] || Moved(before[id], after[id], going) {
      if id in ids {
        var k :| 0 <= k < |ids| && ids[k] == id;
        assert Attempted(terms, at, duration, before, after, ids[k], outcomes[k]);
      }
    }
  }

  /** Whoever holds a lease now held the same one before. */
  ghost predicate NoNewLeases(before: Records, after: Records)
  {
    forall id :: id in after && after[id].state.Leased? ==> id in before && after[id] == before[id]
  }

  ghost predicate SameEvents(before: Records, after: Records)
  {
    after.Keys == before.Keys && forall id :: id in before ==> after[id].data == before[id].data
  }

  /** Nothing is quarantined, and no lease is live at this time. */
  ghost predicate Unobstructed(records: Records, at: int)
  {
    forall id :: id in records ==> !records[id].state.Quarantined? && !Running(records[id], at)
  }

  predicate Running(r: Record, at: int)
  {
    r.state.Leased? && r.lease.Some? && r.lease.value.expiresAt > at
  }

  ghost predicate AllCompleted(records: Records)
  {
    forall id :: id in records ==> records[id].state.Completed?
  }

  /** What a worker leaves when it finds nothing more to claim. */
  ghost predicate Idle(before: Records, after: Records, at: int, going: bool)
  {
    && NoNewLeases(before, after) && SameEvents(before, after)
    && (going && Unobstructed(before, at) ==> AllCompleted(after))
  }

  /** An idle store has no lease that was not there before; without obstacles and mishaps it has caught up. */
  lemma IdleAfter(before: Records, after: Records, at: int, going: bool)
    requires WellFormed(after) && AllBlocked(after, at) && Worked(before, after, going)
    ensures Idle(before, after, at, going)
  {
    hide WellFormed, IsHead;
    if going && Unobstructed(before, at) {
      forall id | id in after ensures after[id].state.Completed? {
        if !after[id].state.Completed? {
          var head := OutboxClaims.HeadExists(after, id);
          OpenHeadObstructs(before, after, at, head);
        }
      }
    }
  }

  lemma OpenHeadObstructs(before: Records, after: Records, at: int, head: string)
    requires AllBlocked(after, at) && Worked(before, after, true) && head in after && IsHead(after, head)
    ensures !Unobstructed(before, at)
  {
    assert OutboxClaims.Blocked(after[head], at);
    assert before[head] == after[head];
  }

  /** The attempts a record may still take before it is completed or quarantined. */
  function Weight(threshold: nat, r: Record): nat
  {
    if r.state.Completed? || r.state.Quarantined? then 0
    else if r.attemptCount < threshold then threshold - r.attemptCount
    else 1
  }

  ghost function OwedBy(threshold: nat, records: Records, ids: set<string>): nat
    requires ids <= records.Keys
  {
    if ids == {} then 0
    else
      var id :| id in ids;
      Weight(threshold, records[id]) + OwedBy(threshold, records, ids - {id})
  }

  ghost function Owed(threshold: nat, records: Records): nat
  {
    OwedBy(threshold, records, records.Keys)
  }

  lemma {:induction false} OwedWithout(threshold: nat, records: Records, ids: set<string>, id: string)
    requires ids <= records.Keys && id in ids
    ensures OwedBy(threshold, records, ids) == Weight(threshold, records[id]) + OwedBy(threshold, records, ids - {id})
  {
    var x :| x in ids
      && OwedBy(threshold, records, ids) == Weight(threshold, records[x]) + OwedBy(threshold, records, ids - {x});
    if x != id {
      OwedWithout(threshold, records, ids - {x}, id);
      OwedWithout(threshold, records, ids - {id}, x);
      assert ids - {x} - {id} == ids - {id} - {x};
    }
  }

  lemma {:induction false} OwedSame(threshold: nat, before: Records, after: Records, ids: set<string>)
    requires ids <= before.Keys && ids <= after.Keys && forall id :: id in ids ==> after[id] == before[id]
    ensures OwedBy(threshold, after, ids) == OwedBy(threshold, before, ids)
  {
    if ids != {} {
      var id :| id in ids;
      OwedWithout(threshold, before, ids, id);
      OwedWithout(threshold, after, ids, id);
      OwedSame(threshold, before, after, ids - {id});
    }
  }

  lemma AttemptPays(terms: Terms, at: int, duration: int, before: Records, after: Records, id: string,
                  outcome: State)
    requires Attempted(terms, at, duration, before, after, id, outcome)
    ensures Weight(terms.threshold, after[id]) + 1 <= Weight(terms.threshold, before[id])
  {
  }

  lemma {:induction false} AttemptsPay(terms: Terms, at: int, duration: int, before: Records, after: Records,
                                       all: set<string>, ids: seq<string>, outcomes: seq<State>)
    requires all <= before.Keys && all <= after.Keys && |outcomes| == |ids|
    requires forall k :: 0 <= k < |ids| ==>
      ids[k] in all && Attempted(terms, at, duration, before, after, ids[k], outcomes[k])
    requires Distinct(ids)
    requires forall id :: id in all && id !in ids ==> after[id] == before[id]
    ensures |ids| + OwedBy(terms.threshold, after, all) <= OwedBy(terms.threshold, before, all)
    decreases |ids|
  {
    if ids == [] {
      OwedSame(terms.threshold, before, after, all);
    } else {
      var last := |ids| - 1;
      var id := ids[last];
      assert ids == ids[..last] + [id];
      OwedWithout(terms.threshold, before, all, id);
      OwedWithout(terms.threshold, after, all, id);
      AttemptPays(terms, at, duration, before, after, id, outcomes[last]);
      AttemptsPay(terms, at, duration, before, after, all - {id}, ids[..last], outcomes[..last]);
    }
  }

  /** Every claimed record uses up an attempt the store owed. */
  lemma CyclePays(terms: Terms, at: int, duration: int, before: Records, after: Records, ids: seq<string>,
                  outcomes: seq<State>)
    requires Cycle(terms, at, duration, before, after, ids, outcomes)
    ensures |ids| + Owed(terms.threshold, after) <= Owed(terms.threshold, before)
  {
    AttemptsPay(terms, at, duration, before, after, before.Keys, ids, outcomes);
  }
}
