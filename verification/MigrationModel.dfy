/** Migration bundles, compiled plans and checkpoints, and the language of well-behaved checkpoint logs. */
module MigrationModel {
  import opened Wrappers
  import opened Identifiers

  datatype Condition = Condition(name: string, operation: string, expectation: string)

  /** One logical step; `content` is the canonical text of its kind, parameters and requirements. */
  datatype MigrationStep = MigrationStep(stepId: string, content: string)

  datatype Bundle = Bundle(
    bundleId: string, sourceFingerprint: string, targetFingerprint: string, steps: seq<MigrationStep>,
    preconditions: seq<Condition>, validations: seq<Condition>, postconditions: seq<Condition>)
  {
    function StepIds(): seq<string> { seq(|steps|, i requires 0 <= i < |steps| => steps[i].stepId) }

    predicate WellFormed()
    {
      bundleId != "" && steps != [] && Distinct(StepIds()) && "" !in StepIds()
    }
  }

  /** SHA-256 of the canonical bundle, taken as injective: equal digests, equal bundles. */
  datatype BundleDigest = BundleDigest(content: Bundle)

  datatype State = Planned | Applying | Validating | Activating | Completed | Failed

  datatype Applied = Applied(stepId: string, resultFingerprint: string, token: string)

  datatype Checkpoint = Checkpoint(
    executionId: string, bundleDigest: BundleDigest, state: State, sequence: nat,
    step: Option<Applied>, failureCode: Option<string>, recordedAt: int)

  datatype CompiledStep = CompiledStep(stepId: string, compilerId: string, artifactDigest: string)

  datatype PlanDigest = PlanDigest(bundleDigest: BundleDigest, steps: seq<CompiledStep>)

  datatype CompiledPlan = CompiledPlan(bundleDigest: BundleDigest, steps: seq<CompiledStep>, planDigest: PlanDigest)
  {
    function StepIds(): seq<string> { seq(|steps|, i requires 0 <= i < |steps| => steps[i].stepId) }

    /** What the constructor of a plan insists on. */
    predicate WellFormed() { planDigest == PlanDigest(bundleDigest, steps) }
  }

  function VerifyCompiled(bundle: Bundle, plan: CompiledPlan): (accepted: bool)
    ensures accepted ==> |plan.steps| == |bundle.steps| && plan.StepIds() == bundle.StepIds()
  {
    if plan.bundleDigest != BundleDigest(bundle) then false
    else if plan.StepIds() != bundle.StepIds() then false
    else plan.planDigest == PlanDigest(plan.bundleDigest, plan.steps)
  }

  /** The executor's own digest check never decides: a constructed plan that matches the bundle already passes it. */
  lemma VerifiedExactly(bundle: Bundle, plan: CompiledPlan)
    requires plan.WellFormed()
    ensures VerifyCompiled(bundle, plan)
      <==> plan.bundleDigest == BundleDigest(bundle) && |plan.steps| == |bundle.steps|
           && forall i :: 0 <= i < |plan.steps| ==> plan.steps[i].stepId == bundle.steps[i].stepId
  {
    if |plan.steps| == |bundle.steps|
      && forall i :: 0 <= i < |plan.steps| ==> plan.steps[i].stepId == bundle.steps[i].stepId {
      assert plan.StepIds() == bundle.StepIds();
    }
    if plan.StepIds() == bundle.StepIds() {
      assert |plan.steps| == |plan.StepIds()| == |bundle.steps|;
      forall i | 0 <= i < |plan.steps|
        ensures plan.steps[i].stepId == bundle.steps[i].stepId
      {
        assert plan.StepIds()[i] == bundle.StepIds()[i];
      }
    }
  }

  // ------------------------------------------------------------- recorder

  type Log = seq<Checkpoint>

  type Records = map<string, Log>

  function LogOf(records: Records, id: string): Log
  {
    if id in records then records[id] else []
  }

  /** The recorder's one check: sequences increase within an execution. */
  predicate Accepts(log: Log, c: Checkpoint)
  {
    log == [] || c.sequence > log[|log| - 1].sequence
  }

  /** The step ids acknowledged so far, in log order. */
  function AppliedIds(log: Log): seq<string>
  {
    if log == [] then []
    else
      var last := log[|log| - 1];
      AppliedIds(log[..|log| - 1]) + if last.state.Applying? && last.step.Some? then [last.step.value.stepId] else []
  }

  // ------------------------------------------------- well-behaved logs

  datatype Stage = Idle | Planned | Validating | Activating | Completed

  /** Where a log has got to: how many steps are acknowledged, and how far its last attempt went. */
  datatype Mode = Mode(applied: nat, stage: Stage)

  /** What one more entry may be, given where the log has got to. */
  function Advance(steps: seq<string>, mode: Mode, c: Checkpoint): Option<Mode>
  {
    if mode.stage.Completed? || (c.state.Applying? <==> c.step.None?) || (c.state.Failed? <==> c.failureCode.None?)
    then None
    else match c.state
      case Planned => Some(Mode(mode.applied, Stage.Planned))
      case Applying =>
        if mode.stage.Planned? && mode.applied < |steps| && c.step.value.stepId == steps[mode.applied]
        then Some(Mode(mode.applied + 1, Stage.Planned)) else None
      case Validating =>
        if mode.stage.Planned? && mode.applied == |steps| then Some(Mode(mode.applied, Stage.Validating)) else None
      case Activating => if mode.stage.Validating? then Some(Mode(mode.applied, Stage.Activating)) else None
      case Completed => if mode.stage.Activating? then Some(Mode(mode.applied, Stage.Completed)) else None
      case Failed => Some(Mode(mode.applied, Idle))
  }

  function Reached(steps: seq<string>, log: Log): Option<Mode>
  {
    if log == [] then Some(Mode(0, Idle))
    else
      var mode := Reached(steps, log[..|log| - 1]);
      if mode.None? then None else Advance(steps, mode.value, log[|log| - 1])
  }

  /** Sequences 0, 1, 2, ..., one bundle, and attempts that resume where the previous ones stopped. */
  ghost predicate Lawful(id: string, bundle: Bundle, log: Log)
  {
    && Reached(bundle.StepIds(), log).Some?
    && forall i :: 0 <= i < |log| ==>
         log[i].sequence == i && log[i].executionId == id && log[i].bundleDigest == BundleDigest(bundle)
  }

  // ------------------------------------------- what lawful logs look like

  lemma {:induction false} AppliedIsPrefix(steps: seq<string>, log: Log)
    requires Reached(steps, log).Some?
    ensures Reached(steps, log).value.applied <= |steps|
    ensures AppliedIds(log) == steps[..Reached(steps, log).value.applied]
    ensures Reached(steps, log).value.stage in {Stage.Validating, Stage.Activating, Stage.Completed} ==>
      AppliedIds(log) == steps
  {
    if log != [] { AppliedIsPrefix(steps, log[..|log| - 1]); }
  }

  lemma {:induction false} PrefixReached(steps: seq<string>, log: Log, k: nat)
    requires Reached(steps, log).Some? && k <= |log|
    ensures Reached(steps, log[..k]).Some?
    decreases |log|
  {
    if k == |log| {
      assert log[..k] == log;
    } else {
      assert log[..|log| - 1][..k] == log[..k];
      PrefixReached(steps, log[..|log| - 1], k);
    }
  }

  /** The states that mean "every step is done" appear only after every step is done, once, in the bundle's order. */
  lemma LateStatesNeedAllSteps(id: string, bundle: Bundle, log: Log, k: nat)
    requires Lawful(id, bundle, log) && k < |log|
    requires log[k].state in {State.Validating, State.Activating, State.Completed}
    ensures AppliedIds(log[..k]) == bundle.StepIds()
  {
    PrefixReached(bundle.StepIds(), log, k + 1);
    PrefixReached(bundle.StepIds(), log, k);
    assert log[..k + 1][..k] == log[..k];
    AppliedIsPrefix(bundle.StepIds(), log[..k]);
  }

  /** The acknowledged steps are a duplicate-free prefix of the bundle's steps. */
  lemma StepsResumeInOrder(id: string, bundle: Bundle, log: Log)
    requires Lawful(id, bundle, log) && bundle.WellFormed()
    ensures AppliedIds(log) <= bundle.StepIds() && Distinct(AppliedIds(log))
  {
    AppliedIsPrefix(bundle.StepIds(), log);
  }

  /** The last entry of a log that has reached a late stage, and the stage before it. */
  lemma LastEntry(steps: seq<string>, log: Log)
    requires Reached(steps, log).Some?
    requires Reached(steps, log).value.stage in {Stage.Validating, Stage.Activating, Stage.Completed}
    ensures log != [] && Reached(steps, log[..|log| - 1]).Some?
    ensures var stage, last := Reached(steps, log).value.stage, log[|log| - 1].state;
      var before := Reached(steps, log[..|log| - 1]).value.stage;
      && (stage.Validating? ==> last.Validating? && before.Planned?)
      && (stage.Activating? ==> last.Activating? && before.Validating?)
      && (stage.Completed? ==> last.Completed? && before.Activating?)
  {
  }

  /** COMPLETED can only be the last entry, and comes right after ACTIVATING, which comes right after VALIDATING. */
  lemma CompletedIsLast(id: string, bundle: Bundle, log: Log, k: nat)
    requires Lawful(id, bundle, log) && k < |log| && log[k].state.Completed?
    ensures k == |log| - 1 >= 2
    ensures log[k - 1].state.Activating? && log[k - 2].state.Validating?
  {
    var steps := bundle.StepIds();
    PrefixReached(steps, log, k + 1);
    assert log[..k + 1][..k] == log[..k];
    if k + 1 < |log| {
      PrefixReached(steps, log, k + 2);
      assert log[..k + 2][..k + 1] == log[..k + 1];
    }
    LastEntry(steps, log[..k + 1]);
    LastEntry(steps, log[..k]);
    assert log[..k][..k - 1] == log[..k - 1];
    LastEntry(steps, log[..k - 1]);
  }
}
