/** The runner and the refinement together: a worker that runs until idle makes the target show the source history. */
module CaughtUp {
  import opened Wrappers
  import opened OutboxModel
  import opened OutboxProtocol
  import opened VersionedTarget
  import opened Deployment
  import opened EndToEnd
  import opened ProjectionRunner
  import OutboxStore
  import Orders

  ghost function HistoryOf(host: Host): seq<OutboxData>
    reads host
  {
    Run(host.cfg, host.log).history
  }

  /** The history is the data of these records, in some order. */
  ghost predicate Lists(records: Records, history: seq<OutboxData>)
  {
    forall d :: d in history <==> d.eventId in records && records[d.eventId].data == d
  }

  lemma HistoryIsRecords(host: Host)
    requires host.Valid()
    ensures Lists(host.store.Recs(), HistoryOf(host))
  {
    hide Next, RunFrom;
    BaseRun(host.cfg, host.log);
    assert host.store.Recs() == Run(host.cfg, host.log).store.records;
  }

  /** A host that has completed these events serves the fold of their history. */
  lemma ServesFold(host: Host, records: Records, history: seq<OutboxData>, rows: seq<Row>, matches: Row -> bool,
                   before: (SourceKey, SourceKey) -> bool)
    requires host.Valid() && AllCompleted(host.store.Recs()) && SameEvents(records, host.store.Recs())
    requires Lists(records, history) && OnePayload(host.cfg.spec, history)
    requires Snapshot(rows, host.target) && Orders.StrictTotal(before)
    ensures Visible(Latest(rows), matches, before) == Visible(Fold(host.cfg.spec, history), matches, before)
  {
    hide Host.Valid, Run, Fold, Latest, Visible, Orders.StrictTotal, Snapshot, OnePayload;
    var now := HistoryOf(host);
    HistoryIsRecords(host);
    SameHistory(host.cfg.spec, records, host.store.Recs(), history, now);
    FoldIgnoresOrder(host.cfg.spec, history, now);
    HostServesHistory(host, rows, matches, before);
  }

  lemma SameHistory(spec: Spec, records: Records, after: Records, history: seq<OutboxData>, now: seq<OutboxData>)
    requires Lists(records, history) && Lists(after, now) && SameEvents(records, after) && OnePayload(spec, history)
    ensures (forall d :: d in history <==> d in now) && OnePayload(spec, now)
  {
  }

  /** A reader's scan of the target, in no particular order. */
  method Scan(host: Host) returns (rows: seq<Row>)
    ensures Snapshot(rows, host.target)
  {
    rows := [];
    var rest := host.target.Values;
    while rest != {}
      invariant rest <= host.target.Values
      invariant forall r :: r in rows <==> r in host.target.Values && r !in rest
      decreases |rest|
    {
      var row :| row in rest;
      rows := rows + [row];
      rest := rest - {row};
    }
  }

  /**
   * Run until idle, then read. When nobody interferes, every delivery goes well, nothing is quarantined and no other
   * lease is live, the reader sees exactly the fold of the source history.
   */
  method CatchUp(runner: Runner, maxCycles: int, claimAt: nat -> int, plans: nat -> Plan, matches: Row -> bool,
                 before: (SourceKey, SourceKey) -> bool)
    returns (error: Option<RunError>, visible: seq<Row>, cycles: nat)
    requires runner.host.Valid() && runner.Ready() && forall n: nat :: ForeignPlan(runner.owner, plans(n))
    requires OnePayload(runner.host.cfg.spec, HistoryOf(runner.host)) && Orders.StrictTotal(before)
    modifies runner.host, runner.host.store, runner.host.store.Objects()
    ensures runner.host.Valid()
    ensures Enough(runner, plans, claimAt, old(runner.host.store.Recs()), maxCycles) ==> error.None?
    ensures error.None? && Clear(runner, plans, claimAt, old(runner.host.store.Recs()), cycles) ==>
      visible == Visible(Fold(runner.host.cfg.spec, old(HistoryOf(runner.host))), matches, before)
    ensures error.None? && ClearFromStart(runner, plans, claimAt, old(runner.host.store.Recs())) ==>
      visible == Visible(Fold(runner.host.cfg.spec, old(HistoryOf(runner.host))), matches, before)
  {
    hide Run, Fold, Latest, Visible, Orders.StrictTotal, Snapshot, OnePayload, ForeignPlan, Host.Valid, Lists,
      AllBlocked, Owed, Runner.Going, QuietPlans, Unobstructed, AllCompleted, SameEvents, NoNewLeases,
      ProjectionRun.Balanced, OutboxStore.InMemoryOutboxStore.Recs;
    var host := runner.host;
    ghost var records, history := host.store.Recs(), HistoryOf(host);
    HistoryIsRecords(host);
    runner.GoingIsQuiet(plans, claimAt, records);
    visible := [];
    var total;
    error, total, cycles := runner.RunUntilIdle(maxCycles, claimAt, plans);
    if error.Some? { return; }
    var rows := Scan(host);
    visible := LatestVisible(rows, matches, before);
    if ClearFromStart(runner, plans, claimAt, records) { StillUnobstructed(records, claimAt, cycles); }
    if Clear(runner, plans, claimAt, records, cycles) { ServesFold(host, records, history, rows, matches, before); }
  }

  /** Nothing goes wrong, and the worker may run more cycles than there are attempts owed. */
  ghost predicate Enough(runner: Runner, plans: nat -> Plan, claimAt: nat -> int, records: Records, maxCycles: int)
  {
    runner.Going(plans, claimAt, records) && maxCycles > Owed(runner.host.cfg.threshold, records)
  }

  /** Nothing goes wrong, and when the worker finds nothing to claim no event is held up by anybody else. */
  ghost predicate Clear(runner: Runner, plans: nat -> Plan, claimAt: nat -> int, records: Records, cycles: nat)
  {
    runner.Going(plans, claimAt, records) && Unobstructed(records, claimAt(cycles))
  }

  /**
   * What a caller can tell before the call: nothing will go wrong, the clock does not run backwards, and by the first
   * claim no event is held up by anybody else.
   */
  ghost predicate ClearFromStart(runner: Runner, plans: nat -> Plan, claimAt: nat -> int, records: Records)
  {
    runner.Going(plans, claimAt, records) && NonDecreasing(claimAt) && Unobstructed(records, claimAt(0))
  }

  ghost predicate NonDecreasing(clock: nat -> int)
  {
    forall m: nat, n: nat :: m <= n ==> clock(m) <= clock(n)
  }

  /** A lease that has run out at the first claim has run out at every later one. */
  lemma StillUnobstructed(records: Records, claimAt: nat -> int, n: nat)
    requires NonDecreasing(claimAt) && Unobstructed(records, claimAt(0))
    ensures Unobstructed(records, claimAt(n))
  {
    assert claimAt(0) <= claimAt(n);
  }
}
