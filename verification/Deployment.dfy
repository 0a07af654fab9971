/** The real store and target, driven step by step: their state is always the state of a protocol run. */
module Deployment {
  import opened Wrappers
  import opened OutboxModel
  import opened OutboxProtocol
  import opened VersionedTarget
  import OutboxStore

  /** What the real objects of a host hold of a protocol state. */
  datatype Image = Image(store: Store, target: map<RowId, Row>, held: set<Attempt>, written: set<Attempt>)

  ghost function ImageAfter(cfg: Config, log: seq<Action>): Image
  {
    var s := Run(cfg, log);
    Image(s.store, s.target, s.held, s.written)
  }

  lemma Appended(cfg: Config, log: seq<Action>, data: OutboxData)
    ensures ImageAfter(cfg, log + [Action.Append(data)])
      == ImageAfter(cfg, log).(store := OutboxModel.Append(ImageAfter(cfg, log).store, data).store)
  {
    assert (log + [Action.Append(data)])[..|log|] == log;
  }

  lemma Claimed(cfg: Config, log: seq<Action>, owner: string, limit: int, duration: int, at: int, ids: seq<string>)
    requires owner != "" && limit >= 1 && duration > 0
    requires ids == ClaimIds(ImageAfter(cfg, log).store.records, limit, at)
    ensures var i := ImageAfter(cfg, log);
      ImageAfter(cfg, log + [Action.Claim(owner, limit, duration, at)])
      == Image(i.store.(records := LeaseAll(i.store.records, ids, owner, at, duration)), i.target,
               i.held + Attempts(owner, ids), i.written)
  {
    assert (log + [Action.Claim(owner, limit, duration, at)])[..|log|] == log;
  }

  lemma Rejected(cfg: Config, log: seq<Action>, a: Action)
    requires var i := ImageAfter(cfg, log);
      || !Enabled(cfg, i.held, i.written, i.store.records, a)
      || (a.Claim? && !(a.owner != "" && a.limit >= 1 && a.duration > 0))
    ensures ImageAfter(cfg, log + [a]) == ImageAfter(cfg, log)
  {
    assert (log + [a])[..|log|] == log;
  }

  lemma Written(cfg: Config, log: seq<Action>, t: Attempt)
    requires t in ImageAfter(cfg, log).held && t.eventId in ImageAfter(cfg, log).store.records
    requires Project(cfg.spec, ImageAfter(cfg, log).store.records[t.eventId].data).Some?
    ensures var i := ImageAfter(cfg, log);
      var row := Project(cfg.spec, i.store.records[t.eventId].data).value;
      ImageAfter(cfg, log + [Action.Write(t)]) == i.(target := i.target[row.id := row], written := i.written + {t})
  {
    assert (log + [Action.Write(t)])[..|log|] == log;
  }

  lemma Finishing(cfg: Config, log: seq<Action>, t: Attempt, ack: Version, fingerprint: string, at: int)
    requires t in ImageAfter(cfg, log).held && t in ImageAfter(cfg, log).written
    ensures ImageAfter(cfg, log + [Action.Complete(t, ack, fingerprint, at)])
      == ImageAfter(cfg, log).(store :=
           OutboxModel.Complete(ImageAfter(cfg, log).store, t.eventId, t.owner, ack, fingerprint, at).store)
  {
    assert (log + [Action.Complete(t, ack, fingerprint, at)])[..|log|] == log;
  }

  lemma Releasing(cfg: Config, log: seq<Action>, t: Attempt, code: string, retryable: bool, at: int)
    requires t in ImageAfter(cfg, log).held
    ensures ImageAfter(cfg, log + [Action.Release(t, code, retryable, at)])
      == ImageAfter(cfg, log).(store :=
           OutboxModel.Release(
             ImageAfter(cfg, log).store, cfg.threshold, t.eventId, t.owner, code, retryable, at).store)
  {
    assert (log + [Action.Release(t, code, retryable, at)])[..|log|] == log;
  }

  lemma Retried(cfg: Config, log: seq<Action>, id: string)
    ensures ImageAfter(cfg, log + [Action.OperatorRetry(id)])
      == ImageAfter(cfg, log).(store := OutboxModel.OperatorRetry(ImageAfter(cfg, log).store, id).store)
  {
    assert (log + [Action.OperatorRetry(id)])[..|log|] == log;
  }

  lemma Crashed(cfg: Config, log: seq<Action>, owner: string)
    ensures var i := ImageAfter(cfg, log);
      ImageAfter(cfg, log + [Action.Crash(owner)])
      == i.(held := (set t | t in i.held && t.owner != owner), written := (set t | t in i.written && t.owner != owner))
  {
    assert (log + [Action.Crash(owner)])[..|log|] == log;
  }

  lemma CheckpointSet(cfg: Config, log: seq<Action>, checkpoint: Checkpoint, expected: int)
    ensures ImageAfter(cfg, log + [Action.SetCheckpoint(checkpoint, expected)])
      == ImageAfter(cfg, log).(store :=
           OutboxModel.SetCheckpoint(ImageAfter(cfg, log).store, checkpoint, expected).store)
  {
    assert (log + [Action.SetCheckpoint(checkpoint, expected)])[..|log|] == log;
  }

  /** One outbox store, one target, what the workers have in hand, and the steps taken so far. */
  class Host {
    const cfg: Config
    const store: OutboxStore.InMemoryOutboxStore
    var target: map<RowId, Row>
    var held: set<Attempt>
    var written: set<Attempt>
    ghost var log: seq<Action>

    ghost predicate Valid()
      reads this, store, store.Objects()
    {
      && this !in store.Objects() && store.Valid() && store.poisonThreshold == cfg.threshold
      && ImageAfter(cfg, log) == Image(store.View(), target, held, written)
    }

    constructor (cfg: Config)
      requires cfg.threshold >= 1
      ensures Valid() && fresh(store) && fresh(store.Objects()) && log == [] && this.cfg == cfg
    {
      this.cfg := cfg;
      store := new OutboxStore.InMemoryOutboxStore(cfg.threshold);
      target, held, written := map[], {}, {};
      log := [];
    }

    method Append(data: OutboxData) returns (reply: Reply)
      requires Valid()
      modifies this, store, store.Objects()
      ensures Valid()
      ensures forall o :: o in store.Objects() && o !in old(store.Objects()) ==> fresh(o)
      ensures log == old(log) + [Action.Append(data)]
      ensures reply == OutboxModel.Append(old(store.View()), data).reply
    {
      hide ImageAfter, OutboxStore.InMemoryOutboxStore.Valid, OutboxStore.InMemoryOutboxStore.Recs,
        OutboxStore.InMemoryOutboxStore.Objects;
      Appended(cfg, log, data);
      reply := store.Append(data);
      log := log + [Action.Append(data)];
    }

    method Claim(owner: string, limit: int, duration: int, at: int)
      returns (claimed: seq<Record>, ghost ids: seq<string>)
      requires Valid() && owner != "" && limit >= 1 && duration > 0
      modifies this, store.Objects()
      ensures Valid() && store.records == old(store.records) && store.Objects() == old(store.Objects())
      ensures log == old(log) + [Action.Claim(owner, limit, duration, at)]
      ensures ids == ClaimIds(old(store.Recs()), limit, at)
      ensures store.Recs() == LeaseAll(old(store.Recs()), ids, owner, at, duration)
      ensures store.checkpoints == old(store.checkpoints)
      ensures claimed == OutboxStore.LeaseSnapshots(old(store.Recs()), ids, owner, at, duration)
      ensures held == old(held) + Attempts(owner, ids)
    {
      hide ImageAfter, OutboxStore.InMemoryOutboxStore.Valid, OutboxStore.InMemoryOutboxStore.Recs,
        OutboxStore.InMemoryOutboxStore.Objects;
      hide WellFormed, LeaseAll, ClaimIds, Hand, Attempts, OutboxStore.LeaseSnapshots;
      ghost var a := Action.Claim(owner, limit, duration, at);
      ghost var before := store.Recs();
      store.ValidRecords();
      var reply;
      reply, claimed, ids := store.AtomicClaim(owner, limit, duration, at);
      Claimed(cfg, log, owner, limit, duration, at, ids);
      Snapshots(before, claimed, ids, owner, duration, at);
      held := held + Hand(owner, claimed);
      log := log + [a];
    }

    /** A claim with arguments the store refuses. */
    method InvalidClaim(owner: string, limit: int, duration: int, at: int)
      requires Valid() && !(owner != "" && limit >= 1 && duration > 0)
      modifies this, store.Objects()
      ensures Valid() && store.records == old(store.records) && store.Objects() == old(store.Objects())
      ensures log == old(log) + [Action.Claim(owner, limit, duration, at)]
    {
      hide ImageAfter, OutboxStore.InMemoryOutboxStore.Valid, OutboxStore.InMemoryOutboxStore.Recs,
        OutboxStore.InMemoryOutboxStore.Objects;
      Rejected(cfg, log, Action.Claim(owner, limit, duration, at));
      var _, _, _ := store.AtomicClaim(owner, limit, duration, at);
      log := log + [Action.Claim(owner, limit, duration, at)];
    }

    static function Hand(owner: string, claimed: seq<Record>): set<Attempt>
    {
      set r | r in claimed :: Attempt(owner, r.data.eventId)
    }

    static lemma Snapshots(records: Records, claimed: seq<Record>, ids: seq<string>, owner: string, duration: int,
                           at: int)
      requires WellFormed(records) && forall id :: id in ids ==> id in records
      requires claimed == OutboxStore.LeaseSnapshots(records, ids, owner, at, duration)
      ensures Hand(owner, claimed) == Attempts(owner, ids)
    {
      forall k | 0 <= k < |ids|
        ensures claimed[k].data.eventId == ids[k]
      {
        assert RecordWellFormed(ids[k], records[ids[k]]);
      }
      forall id | id in ids
        ensures exists r :: r in claimed && Attempt(owner, r.data.eventId) == Attempt(owner, id)
      {
        var k :| 0 <= k < |ids| && ids[k] == id;
        assert claimed[k] in claimed;
      }
    }

    /** Upsert the row of a held event, if it projects. */
    method Write(t: Attempt)
      requires Valid()
      modifies this
      ensures Valid() && log == old(log) + [Action.Write(t)]
      ensures held == old(held) && store.View() == old(store.View()) && store.Objects() == old(store.Objects())
      ensures t in old(held) && t.eventId in store.Recs() && Project(cfg.spec, store.Recs()[t.eventId].data).Some? ==>
        var row := Project(cfg.spec, store.Recs()[t.eventId].data).value;
        t in written && target == old(target)[row.id := row]
    {
      hide ImageAfter, OutboxStore.InMemoryOutboxStore.Valid, OutboxStore.InMemoryOutboxStore.Recs,
        OutboxStore.InMemoryOutboxStore.Objects;
      store.ValidRecords();
      var image := None;
      if t in held && t.eventId in store.records {
        image := Project(cfg.spec, store.records[t.eventId].data);
      }
      if image.Some? {
        Written(cfg, log, t);
        target := target[image.value.id := image.value];
        written := written + {t};
      } else {
        Rejected(cfg, log, Action.Write(t));
      }
      log := log + [Action.Write(t)];
    }

    method Complete(t: Attempt, ack: Version, fingerprint: string, at: int) returns (reply: Reply)
      requires Valid()
      modifies this, store, store.Objects()
      ensures Valid() && store.records == old(store.records) && store.Objects() == old(store.Objects())
      ensures log == old(log) + [Action.Complete(t, ack, fingerprint, at)] && held == old(held)
      ensures t in old(held) && t in old(written) ==>
        Answer(store.View(), reply) == OutboxModel.Complete(old(store.View()), t.eventId, t.owner, ack, fingerprint, at)
      ensures Kept(old(store.Recs()), store.Recs())
    {
      hide ImageAfter, OutboxStore.InMemoryOutboxStore.Valid, OutboxStore.InMemoryOutboxStore.Recs,
        OutboxStore.InMemoryOutboxStore.Objects;
      reply := Invalid;
      AnswersKeep(store.View(), cfg.threshold, t, ack, fingerprint, "", false, at);
      if t in held && t in written {
        Finishing(cfg, log, t, ack, fingerprint, at);
        reply := store.Complete(t.eventId, t.owner, ack, fingerprint, at);
      } else {
        Rejected(cfg, log, Action.Complete(t, ack, fingerprint, at));
      }
      log := log + [Action.Complete(t, ack, fingerprint, at)];
    }

    method Release(t: Attempt, code: string, retryable: bool, at: int) returns (reply: Reply)
      requires Valid()
      modifies this, store, store.Objects()
      ensures Valid() && store.records == old(store.records) && store.Objects() == old(store.Objects())
      ensures log == old(log) + [Action.Release(t, code, retryable, at)] && held == old(held)
      ensures t in old(held) ==>
        Answer(store.View(), reply)
        == OutboxModel.Release(old(store.View()), cfg.threshold, t.eventId, t.owner, code, retryable, at)
      ensures Kept(old(store.Recs()), store.Recs())
    {
      hide ImageAfter, OutboxStore.InMemoryOutboxStore.Valid, OutboxStore.InMemoryOutboxStore.Recs,
        OutboxStore.InMemoryOutboxStore.Objects;
      reply := Invalid;
      AnswersKeep(store.View(), cfg.threshold, t, NoVersion, "", code, retryable, at);
      if t in held {
        Releasing(cfg, log, t, code, retryable, at);
        reply := store.Release(t.eventId, t.owner, code, retryable, at);
      } else {
        Rejected(cfg, log, Action.Release(t, code, retryable, at));
      }
      log := log + [Action.Release(t, code, retryable, at)];
    }

    method OperatorRetry(id: string) returns (reply: Reply)
      requires Valid()
      modifies this, store, store.Objects()
      ensures Valid() && store.records == old(store.records) && store.Objects() == old(store.Objects())
      ensures log == old(log) + [Action.OperatorRetry(id)]
      ensures reply == OutboxModel.OperatorRetry(old(store.View()), id).reply
    {
      hide ImageAfter, OutboxStore.InMemoryOutboxStore.Valid, OutboxStore.InMemoryOutboxStore.Recs,
        OutboxStore.InMemoryOutboxStore.Objects;
      Retried(cfg, log, id);
      reply := store.OperatorRetry(id);
      log := log + [Action.OperatorRetry(id)];
    }

    /** The owner's worker stops; only what it had in hand is lost. */
    method Crash(owner: string)
      requires Valid()
      modifies this
      ensures Valid() && log == old(log) + [Action.Crash(owner)]
      ensures store.View() == old(store.View()) && store.Objects() == old(store.Objects())
    {
      hide ImageAfter, OutboxStore.InMemoryOutboxStore.Valid, OutboxStore.InMemoryOutboxStore.Recs,
        OutboxStore.InMemoryOutboxStore.Objects;
      Crashed(cfg, log, owner);
      held := set t | t in held && t.owner != owner;
      written := set t | t in written && t.owner != owner;
      log := log + [Action.Crash(owner)];
    }

    method SetCheckpoint(checkpoint: Checkpoint, expected: int) returns (reply: Reply)
      requires Valid()
      modifies this, store
      ensures Valid() && store.records == old(store.records) && store.Objects() == old(store.Objects())
      ensures log == old(log) + [Action.SetCheckpoint(checkpoint, expected)]
      ensures reply == OutboxModel.SetCheckpoint(old(store.View()), checkpoint, expected).reply
    {
      hide ImageAfter, OutboxStore.InMemoryOutboxStore.Valid, OutboxStore.InMemoryOutboxStore.Recs,
        OutboxStore.InMemoryOutboxStore.Objects;
      CheckpointSet(cfg, log, checkpoint, expected);
      reply := store.CompareAndSetCheckpoint(checkpoint, expected);
      log := log + [Action.SetCheckpoint(checkpoint, expected)];
    }

    /** Any one step, by anybody. */
    method Perform(a: Action)
      requires Valid()
      modifies this, store, store.Objects()
      ensures Valid()
      ensures forall o :: o in store.Objects() && o !in old(store.Objects()) ==> fresh(o)
      ensures log == old(log) + [a]
    {
      match a
      case Append(data) => var _ := Append(data);
      case Claim(owner, limit, duration, at) =>
        if owner != "" && limit >= 1 && duration > 0 {
          var _, _ := Claim(owner, limit, duration, at);
        } else {
          InvalidClaim(owner, limit, duration, at);
        }
      case Write(t) => Write(t);
      case Complete(t, ack, fingerprint, at) => var _ := Complete(t, ack, fingerprint, at);
      case Release(t, code, retryable, at) => var _ := Release(t, code, retryable, at);
      case OperatorRetry(id) => var _ := OperatorRetry(id);
      case Crash(owner) => Crash(owner);
      case SetCheckpoint(checkpoint, expected) => var _ := SetCheckpoint(checkpoint, expected);
    }

    /** Any interleaving of steps on the real store and target is the same run of the protocol. */
    method PerformAll(actions: seq<Action>)
      requires Valid()
      modifies this, store, store.Objects()
      ensures Valid()
      ensures forall o :: o in store.Objects() && o !in old(store.Objects()) ==> fresh(o)
      ensures log == old(log) + actions
    {
      for i := 0 to |actions|
        invariant Valid()
        invariant forall o :: o in store.Objects() && o !in old(store.Objects()) ==> fresh(o)
        invariant log == old(log) + actions[..i]
      {
        assert old(log) + actions[..i + 1] == old(log) + actions[..i] + [actions[i]];
        Perform(actions[i]);
      }
    }
  }
}
