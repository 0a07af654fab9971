/**
 * The outbox protocol as a state machine: any number of workers, producers and operators take atomic steps
 * over one store and one target. Every step carries the clock reading of its caller, so clocks may disagree
 * and run backwards. A worker may stop at any point.
 */
module OutboxProtocol {
  import opened Wrappers
  import opened OutboxModel
  import opened VersionedTarget

  datatype Config = Config(threshold: nat, spec: Spec)

  /** One delivery in a worker's hands. */
  datatype Attempt = Attempt(owner: string, eventId: string)

  datatype ClaimEntry = ClaimEntry(eventId: string, owner: string, expiresAt: int, reclaimed: bool)

  /**
   * The store and target; what each worker still has in hand (`held`) and has written (`written`); and the
   * history of the run: appended events, claims, completions and operator retries, in order.
   */
  datatype Sys = Sys(
    store: Store, target: map<RowId, Row>, held: set<Attempt>, written: set<Attempt>,
    history: seq<OutboxData>, claims: seq<ClaimEntry>, completions: seq<OutboxData>, retries: multiset<string>)

  datatype Action =
    | Append(data: OutboxData)
    | Claim(owner: string, limit: int, duration: int, at: int)
    | Write(attempt: Attempt)
    | Complete(attempt: Attempt, ack: Version, fingerprint: string, at: int)
    | Release(attempt: Attempt, code: string, retryable: bool, at: int)
    | OperatorRetry(eventId: string)
    | Crash(owner: string)
    | SetCheckpoint(checkpoint: Checkpoint, expected: int)

  const EMPTY := Sys(Store(map[], map[]), map[], {}, {}, [], [], [], multiset{})

  /** A worker writes and releases only what it holds, and completes only after its own target write. */
  predicate Enabled(cfg: Config, held: set<Attempt>, written: set<Attempt>, records: Records, a: Action)
  {
    match a
    case Write(t) => t in held && t.eventId in records && Project(cfg.spec, records[t.eventId].data).Some?
    case Complete(t, _, _, _) => t in held && t in written
    case Release(t, _, _, _) => t in held
    case _ => true
  }

  function WithClaims(claims: seq<ClaimEntry>, records: Records, ids: seq<string>, owner: string,
                      expiresAt: int): seq<ClaimEntry>
    requires forall id :: id in ids ==> id in records
  {
    if ids == [] then claims
    else
      var last := ids[|ids| - 1];
      WithClaims(claims, records, ids[..|ids| - 1], owner, expiresAt)
        + [ClaimEntry(last, owner, expiresAt, records[last].state.Leased?)]
  }

  function Attempts(owner: string, ids: seq<string>): set<Attempt>
  {
    set id | id in ids :: Attempt(owner, id)
  }

  function ClaimOf(s: Sys, ids: seq<string>, owner: string, duration: int, at: int): Sys
    requires forall id :: id in ids ==> id in s.store.records
  {
    s.(store := s.store.(records := LeaseAll(s.store.records, ids, owner, at, duration)),
       held := s.held + Attempts(owner, ids),
       claims := WithClaims(s.claims, s.store.records, ids, owner, at + duration))
  }

  ghost function ClaimNext(s: Sys, owner: string, limit: nat, duration: int, at: int): Sys
  {
    ClaimOf(s, ClaimIds(s.store.records, limit, at), owner, duration, at)
  }

  /** What the store answers; `Done` for steps that do not involve it. */
  function ReplyTo(cfg: Config, s: Sys, a: Action): Reply
  {
    match a
    case Append(data) => OutboxModel.Append(s.store, data).reply
    case Claim(owner, limit, duration, _) => if owner != "" && limit >= 1 && duration > 0 then Done else Invalid
    case Complete(t, ack, fingerprint, at) =>
      OutboxModel.Complete(s.store, t.eventId, t.owner, ack, fingerprint, at).reply
    case Release(t, code, retryable, at) =>
      OutboxModel.Release(s.store, cfg.threshold, t.eventId, t.owner, code, retryable, at).reply
    case OperatorRetry(id) => OutboxModel.OperatorRetry(s.store, id).reply
    case SetCheckpoint(checkpoint, expected) => OutboxModel.SetCheckpoint(s.store, checkpoint, expected).reply
    case _ => Done
  }

  /** The effect of a step the store accepts. */
  ghost function Effect(cfg: Config, s: Sys, a: Action): Sys
    requires Enabled(cfg, s.held, s.written, s.store.records, a) && ReplyTo(cfg, s, a).Done?
  {
    match a
    case Append(data) =>
      if data.eventId in s.store.records then s
      else s.(store := OutboxModel.Append(s.store, data).store, history := s.history + [data])
    case Claim(owner, limit, duration, at) => ClaimNext(s, owner, limit, duration, at)
    case Write(t) =>
      var row := Project(cfg.spec, s.store.records[t.eventId].data).value;
      s.(target := s.target[row.id := row], written := s.written + {t})
    case Complete(t, ack, fingerprint, at) =>
      s.(store := OutboxModel.Complete(s.store, t.eventId, t.owner, ack, fingerprint, at).store,
         completions := s.completions + [s.store.records[t.eventId].data])
    case Release(t, code, retryable, at) =>
      s.(store := OutboxModel.Release(s.store, cfg.threshold, t.eventId, t.owner, code, retryable, at).store)
    case OperatorRetry(id) =>
      s.(store := OutboxModel.OperatorRetry(s.store, id).store, retries := s.retries + multiset{id})
    case Crash(owner) =>
      s.(held := (set t | t in s.held && t.owner != owner), written := (set t | t in s.written && t.owner != owner))
    case SetCheckpoint(checkpoint, expected) =>
      s.(store := OutboxModel.SetCheckpoint(s.store, checkpoint, expected).store)
  }

  /** One atomic step. A step that is not enabled, or that the store rejects, changes nothing. */
  ghost function Next(cfg: Config, s: Sys, a: Action): Sys
  {
    if Enabled(cfg, s.held, s.written, s.store.records, a) && ReplyTo(cfg, s, a).Done? then Effect(cfg, s, a) else s
  }

  ghost function RunFrom(cfg: Config, s: Sys, actions: seq<Action>): Sys
  {
    if actions == [] then s
    else Next(cfg, RunFrom(cfg, s, actions[..|actions| - 1]), actions[|actions| - 1])
  }

  /** The state after any interleaving of steps, from the empty store. */
  ghost function Run(cfg: Config, actions: seq<Action>): Sys
  {
    RunFrom(cfg, EMPTY, actions)
  }

  // ------------------------------------------------------------ base invariant

  ghost predicate HistoryInv(s: Sys)
  {
    && (forall i, j :: 0 <= i < j < |s.history| ==> s.history[i].eventId != s.history[j].eventId)
    && (forall d :: d in s.history ==> d.eventId in s.store.records && s.store.records[d.eventId].data == d)
    && (forall id :: id in s.store.records ==> s.store.records[id].data in s.history)
  }

  ghost predicate BaseInv(s: Sys)
  {
    && WellFormed(s.store.records)
    && HistoryInv(s)
    && (forall t :: t in s.held || t in s.written ==> t.eventId in s.store.records)
  }

  /** The data of a record never changes, and a COMPLETED record never changes at all. */
  predicate Evolves(r: Record, next: Record)
  {
    next.data == r.data && r.attemptCount <= next.attemptCount && (r.state.Completed? ==> next == r)
  }

  /** Between two states of a run a record keeps its data, and everything once it is COMPLETED. */
  ghost predicate Kept(before: Records, after: Records)
  {
    forall id :: id in before ==> id in after && Evolves(before[id], after[id])
  }

  lemma AnswersKeep(s: Store, threshold: nat, t: Attempt, ack: Version, fingerprint: string, code: string,
                    retryable: bool, at: int)
    ensures Kept(s.records, OutboxModel.Complete(s, t.eventId, t.owner, ack, fingerprint, at).store.records)
    ensures Kept(s.records, OutboxModel.Release(s, threshold, t.eventId, t.owner, code, retryable, at).store.records)
  {
  }

  lemma KeptTransitive(a: Records, b: Records, c: Records)
    requires Kept(a, b) && Kept(b, c)
    ensures Kept(a, c)
  {
  }

  lemma ClaimEvolves(records: Records, limit: nat, owner: string, duration: int, at: int, id: string)
    requires id in records
    ensures Evolves(records[id], LeaseAll(records, ClaimIds(records, limit, at), owner, at, duration)[id])
  {
    ClaimedAreClaimable(records, limit, at);
  }

  lemma StepEvolves(cfg: Config, s: Sys, a: Action)
    ensures Kept(s.store.records, Next(cfg, s, a).store.records)
  {
    hide ClaimIds, WithClaims, Project, IsHead;
    forall id | id in s.store.records
      ensures id in Next(cfg, s, a).store.records && Evolves(s.store.records[id], Next(cfg, s, a).store.records[id])
    {
      if a.Claim? && ReplyTo(cfg, s, a).Done? {
        ClaimEvolves(s.store.records, a.limit, a.owner, a.duration, a.at, id);
      }
    }
  }

  lemma WellFormedStep(cfg: Config, s: Sys, a: Action)
    requires BaseInv(s)
    ensures WellFormed(Next(cfg, s, a).store.records)
  {
    hide ClaimIds, WithClaims, Project;
    var n := Next(cfg, s, a);
    forall id | id in n.store.records
      ensures RecordWellFormed(id, n.store.records[id])
    {
      if id in s.store.records { assert RecordWellFormed(id, s.store.records[id]); }
    }
  }

  lemma HistoryKept(s: Sys, n: Sys)
    requires HistoryInv(s) && n.history == s.history && n.store.records.Keys == s.store.records.Keys
    requires forall id :: id in s.store.records ==> Evolves(s.store.records[id], n.store.records[id])
    ensures HistoryInv(n)
  {
    forall id | id in n.store.records
      ensures n.store.records[id].data in n.history
    {
      assert s.store.records[id].data in s.history;
    }
  }

  lemma HistoryAppended(s: Sys, n: Sys, data: OutboxData)
    requires HistoryInv(s) && data.eventId !in s.store.records && n.history == s.history + [data]
    requires n.store.records == s.store.records[data.eventId := Fresh(data)]
    ensures HistoryInv(n)
  {
    forall i | 0 <= i < |s.history|
      ensures s.history[i].eventId in s.store.records
    {
      assert s.history[i] in s.history;
    }
    forall id | id in n.store.records
      ensures n.store.records[id].data in n.history
    {
      if id != data.eventId { assert s.store.records[id].data in s.history; }
    }
  }

  lemma HistoryStep(cfg: Config, s: Sys, a: Action)
    requires BaseInv(s)
    ensures HistoryInv(Next(cfg, s, a))
    ensures s.history <= Next(cfg, s, a).history
  {
    hide Project, ClaimIds, WithClaims, HistoryInv, WellFormed;
    var n := Next(cfg, s, a);
    StepEvolves(cfg, s, a);
    if a.Append? && a.data.eventId !in s.store.records {
      HistoryAppended(s, n, a.data);
    } else {
      HistoryKept(s, n);
    }
  }

  lemma BaseStep(cfg: Config, s: Sys, a: Action)
    requires BaseInv(s)
    ensures BaseInv(Next(cfg, s, a))
    ensures s.history <= Next(cfg, s, a).history
  {
    var n := Next(cfg, s, a);
    HistoryStep(cfg, s, a);
    WellFormedStep(cfg, s, a);
    assert s.store.records.Keys <= n.store.records.Keys by { StepEvolves(cfg, s, a); }
    forall t | t in n.held || t in n.written
      ensures t.eventId in n.store.records
    {
    }
  }

  lemma {:induction false} BaseRun(cfg: Config, actions: seq<Action>)
    ensures BaseInv(Run(cfg, actions))
  {
    if actions != [] {
      BaseRun(cfg, actions[..|actions| - 1]);
      BaseStep(cfg, Run(cfg, actions[..|actions| - 1]), actions[|actions| - 1]);
    }
  }

  lemma {:induction false} HistoryGrows(cfg: Config, actions: seq<Action>, k: nat)
    requires k <= |actions|
    ensures Run(cfg, actions[..k]).history <= Run(cfg, actions).history
    decreases |actions| - k
  {
    if k < |actions| {
      HistoryGrows(cfg, actions, k + 1);
      assert actions[..k + 1][..k] == actions[..k];
      BaseRun(cfg, actions[..k]);
      BaseStep(cfg, Run(cfg, actions[..k]), actions[k]);
    } else {
      assert actions[..k] == actions;
    }
  }
}
