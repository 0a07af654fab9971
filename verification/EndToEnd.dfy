/** At-least-once delivery into the versioned target shows the same as the fold of the source history. */
module EndToEnd {
  import opened Wrappers
  import opened OutboxModel
  import opened OutboxProtocol
  import opened Deployment
  import opened VersionedTarget
  import Orders

  /** The target holds this event's row, exactly. */
  ghost predicate Landed(cfg: Config, s: Sys, data: OutboxData)
  {
    var image := Project(cfg.spec, data);
    image.Some? && image.value.id in s.target && s.target[image.value.id] == image.value
  }

  ghost predicate TargetInv(cfg: Config, s: Sys)
  {
    && (forall id :: id in s.target ==> s.target[id].id == id && ImageOf(cfg.spec, s.history, s.target[id]))
    && (forall t :: t in s.written ==> t.eventId in s.store.records && Landed(cfg, s, s.store.records[t.eventId].data))
    && (forall id :: id in s.store.records && s.store.records[id].state.Completed? ==>
          Landed(cfg, s, s.store.records[id].data))
  }

  /** Writing a row leaves every row that has landed, because one source version has one payload. */
  lemma WriteKeepsLanded(cfg: Config, s: Sys, n: Sys, data: OutboxData, other: OutboxData)
    requires OnePayload(cfg.spec, s.history) && data in s.history && other in s.history
    requires Project(cfg.spec, data).Some?
    requires n.target == s.target[Project(cfg.spec, data).value.id := Project(cfg.spec, data).value]
    requires Landed(cfg, s, other)
    ensures Landed(cfg, n, other)
  {
    if Project(cfg.spec, other).value.id == Project(cfg.spec, data).value.id {
      SameIdSameRow(cfg.spec, s.history, other, data);
    }
  }

  lemma AllStayLanded(cfg: Config, s: Sys, n: Sys, data: OutboxData)
    requires OnePayload(cfg.spec, s.history) && HistoryInv(s) && data in s.history && Project(cfg.spec, data).Some?
    requires n.target == s.target[Project(cfg.spec, data).value.id := Project(cfg.spec, data).value]
    ensures forall id :: id in s.store.records && Landed(cfg, s, s.store.records[id].data) ==>
      Landed(cfg, n, s.store.records[id].data)
  {
    forall id | id in s.store.records && Landed(cfg, s, s.store.records[id].data)
      ensures Landed(cfg, n, s.store.records[id].data)
    {
      WriteKeepsLanded(cfg, s, n, data, s.store.records[id].data);
    }
  }

  lemma RowLands(cfg: Config, s: Sys, n: Sys, t: Attempt, row: Row)
    requires TargetInv(cfg, s) && ImageOf(cfg.spec, s.history, row)
    requires t.eventId in s.store.records && Project(cfg.spec, s.store.records[t.eventId].data) == Some(row)
    requires n == s.(target := s.target[row.id := row], written := s.written + {t})
    requires forall id :: id in s.store.records && Landed(cfg, s, s.store.records[id].data) ==>
      Landed(cfg, n, s.store.records[id].data)
    ensures TargetInv(cfg, n)
  {
  }

  lemma ImagesGrow(spec: Spec, history: seq<OutboxData>, longer: seq<OutboxData>, row: Row)
    requires history <= longer && ImageOf(spec, history, row)
    ensures ImageOf(spec, longer, row)
  {
    var d :| d in history && Project(spec, d) == Some(row);
    assert d in longer;
  }

  lemma QuietStep(cfg: Config, s: Sys, a: Action)
    requires !a.Write?
    ensures Next(cfg, s, a).target == s.target && Next(cfg, s, a).written <= s.written
  {
  }

  /** A step that writes no row keeps what has landed, and finishes only what has been written. */
  lemma OthersKeepTarget(cfg: Config, s: Sys, a: Action)
    requires BaseInv(s) && TargetInv(cfg, s) && !a.Write?
    ensures TargetInv(cfg, Next(cfg, s, a))
  {
    hide Next;
    var n := Next(cfg, s, a);
    QuietStep(cfg, s, a);
    assert s.history <= n.history by { BaseStep(cfg, s, a); }
    StepEvolves(cfg, s, a);
    forall id | id in n.target
      ensures n.target[id].id == id && ImageOf(cfg.spec, n.history, n.target[id])
    {
      ImagesGrow(cfg.spec, s.history, n.history, s.target[id]);
    }
    forall id | id in n.store.records && n.store.records[id].state.Completed?
      ensures Landed(cfg, n, n.store.records[id].data)
    {
      FinishedWasWritten(cfg, s, a, id);
    }
  }

  lemma FinishedWasWritten(cfg: Config, s: Sys, a: Action, id: string)
    requires id in Next(cfg, s, a).store.records && Next(cfg, s, a).store.records[id].state.Completed?
    ensures id in s.store.records
    ensures s.store.records[id].state.Completed? || (a.Complete? && a.attempt.eventId == id && a.attempt in s.written)
  {
  }

  lemma TargetStep(cfg: Config, s: Sys, a: Action)
    requires BaseInv(s) && TargetInv(cfg, s) && OnePayload(cfg.spec, s.history)
    ensures TargetInv(cfg, Next(cfg, s, a))
  {
    if !a.Write? {
      OthersKeepTarget(cfg, s, a);
    } else if Enabled(cfg, s.held, s.written, s.store.records, a) {
      var data := s.store.records[a.attempt.eventId].data;
      assert ImageOf(cfg.spec, s.history, Project(cfg.spec, data).value);
      AllStayLanded(cfg, s, Next(cfg, s, a), data);
      RowLands(cfg, s, Next(cfg, s, a), a.attempt, Project(cfg.spec, data).value);
    }
  }

  /**
   * In every run, for every interleaving, expiry, crash and replay: the target holds only images of appended
   * events, and it holds the exact row of every event that was completed.
   */
  lemma {:induction false} TargetIsFaithful(cfg: Config, actions: seq<Action>)
    requires OnePayload(cfg.spec, Run(cfg, actions).history)
    ensures TargetInv(cfg, Run(cfg, actions))
  {
    if actions != [] {
      var init, last := actions[..|actions| - 1], actions[|actions| - 1];
      BaseRun(cfg, init);
      BaseStep(cfg, Run(cfg, init), last);
      var before, after := Run(cfg, init).history, Run(cfg, actions).history;
      assert forall d :: d in before ==> d in after;
      TargetIsFaithful(cfg, init);
      TargetStep(cfg, Run(cfg, init), last);
    }
  }

  /** Every event of this source key has been completed. */
  ghost predicate KeyDelivered(cfg: Config, s: Sys, key: SourceKey)
  {
    forall d :: d in s.history && Key(cfg.spec, d) == key ==>
      d.eventId in s.store.records && s.store.records[d.eventId].state.Completed?
  }

  ghost predicate Snapshot(rows: seq<Row>, target: map<RowId, Row>)
  {
    forall r :: r in rows <==> r in target.Values
  }

  /** A source key whose events are all completed reads, from any scan of the target, as the fold of the history. */
  lemma DeliveredKeyIsCurrent(cfg: Config, actions: seq<Action>, rows: seq<Row>, key: SourceKey)
    requires OnePayload(cfg.spec, Run(cfg, actions).history)
    requires KeyDelivered(cfg, Run(cfg, actions), key)
    requires Snapshot(rows, Run(cfg, actions).target)
    ensures var fold := Fold(cfg.spec, Run(cfg, actions).history);
      && (key in Latest(rows) <==> key in fold)
      && (key in fold ==> Latest(rows)[key] == fold[key])
  {
    var s := Run(cfg, actions);
    BaseRun(cfg, actions);
    TargetIsFaithful(cfg, actions);
    forall r | r in rows
      ensures ImageOf(cfg.spec, s.history, r)
    {
      var id :| id in s.target && s.target[id] == r;
    }
    forall r: Row | r.sourceKey == key && ImageOf(cfg.spec, s.history, r)
      ensures r in rows
    {
      var d :| d in s.history && Project(cfg.spec, d) == Some(r);
      assert Key(cfg.spec, d) == key;
      assert Landed(cfg, s, d);
      assert r.id in s.target && s.target[r.id] == r;
    }
    ReductionIsFold(cfg.spec, s.history, rows, key);
  }

  ghost predicate AllDelivered(s: Sys)
  {
    forall id :: id in s.store.records ==> s.store.records[id].state.Completed?
  }

  /**
   * End to end: once every event is completed, a reader of the target sees exactly what a reader of the folded
   * source history sees, whatever the interleaving that got there and whatever the order of the scan.
   */
  lemma TargetRefinesHistory(cfg: Config, actions: seq<Action>, rows: seq<Row>, matches: Row -> bool,
                             before: (SourceKey, SourceKey) -> bool)
    requires OnePayload(cfg.spec, Run(cfg, actions).history) && AllDelivered(Run(cfg, actions))
    requires Snapshot(rows, Run(cfg, actions).target) && Orders.StrictTotal(before)
    ensures Latest(rows) == Fold(cfg.spec, Run(cfg, actions).history)
    ensures Visible(Latest(rows), matches, before)
      == Visible(Fold(cfg.spec, Run(cfg, actions).history), matches, before)
  {
    var fold := Fold(cfg.spec, Run(cfg, actions).history);
    forall key: SourceKey
      ensures (key in Latest(rows) <==> key in fold) && (key in fold ==> Latest(rows)[key] == fold[key])
    {
      BaseRun(cfg, actions);
      DeliveredKeyIsCurrent(cfg, actions, rows, key);
    }
    assert Latest(rows).Keys == fold.Keys;
  }

  /** Until then a reader is never shown anything but a row that some appended event projects to. */
  lemma OnlySourceRowsAreVisible(cfg: Config, actions: seq<Action>, rows: seq<Row>, key: SourceKey)
    requires OnePayload(cfg.spec, Run(cfg, actions).history)
    requires Snapshot(rows, Run(cfg, actions).target) && key in Latest(rows)
    ensures var fold := Fold(cfg.spec, Run(cfg, actions).history);
      && ImageOf(cfg.spec, Run(cfg, actions).history, Latest(rows)[key])
      && key in fold && Latest(rows)[key].sourceVersion <= fold[key].sourceVersion
  {
    var s := Run(cfg, actions);
    BaseRun(cfg, actions);
    TargetIsFaithful(cfg, actions);
    LatestIsNewest(rows);
    FoldIsNewest(cfg.spec, s.history);
    var r := Latest(rows)[key];
    var id :| id in s.target && s.target[id] == r;
  }

  /** The same for the real store and target: what a valid host serves is the fold of the history of the run it made. */
  lemma HostServesHistory(host: Host, rows: seq<Row>, matches: Row -> bool, before: (SourceKey, SourceKey) -> bool)
    requires host.Valid() && OnePayload(host.cfg.spec, Run(host.cfg, host.log).history)
    requires forall id :: id in host.store.Recs() ==> host.store.Recs()[id].state.Completed?
    requires Snapshot(rows, host.target) && Orders.StrictTotal(before)
    ensures Visible(Latest(rows), matches, before)
      == Visible(Fold(host.cfg.spec, Run(host.cfg, host.log).history), matches, before)
  {
    TargetRefinesHistory(host.cfg, host.log, rows, matches, before);
  }
}
