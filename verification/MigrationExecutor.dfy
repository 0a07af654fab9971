/** The recorder as an object, and one `execute` call running while other calls use the same recorder. */
module MigrationExecutor {
  import opened Wrappers
  import opened MigrationModel
  import opened MigrationProtocol
  import MigrationHistory

  class InMemoryMigrationRecorder {
    var records: Records

    constructor ()
      ensures records == map[]
    {
      records := map[];
    }

    method Append(checkpoint: Checkpoint) returns (accepted: bool)
      modifies this
      ensures var log := LogOf(old(records), checkpoint.executionId);
        && (accepted <==> Accepts(log, checkpoint))
        && records == if accepted then old(records)[checkpoint.executionId := log + [checkpoint]] else old(records)
    {
      var log := LogOf(records, checkpoint.executionId);
      if log != [] && checkpoint.sequence <= log[|log| - 1].sequence { return false; }
      records := records[checkpoint.executionId := log + [checkpoint]];
      accepted := true;
    }

    method Checkpoints(id: string) returns (log: Log)
      ensures log == LogOf(records, id)
    {
      log := LogOf(records, id);
    }
  }

  /** What the real objects hold of a protocol state. */
  datatype Held = Held(records: Records, attempts: map<nat, Attempt>)

  function Stepped(h: Held, action: Action): Held
  {
    match action
    case Start(name, id, bundle) =>
      if name in h.attempts || id == "" || !bundle.WellFormed() || !Startable(LogOf(h.records, id), bundle) then h
      else h.(attempts := h.attempts[name := Started(id, bundle, LogOf(h.records, id))])
    case Do(name, move, at) =>
      if name !in h.attempts || !Enabled(h.attempts[name], move) then h
      else
        var a := h.attempts[name];
        var offer := Offer(a, move, at);
        if offer.Some? && Accepts(LogOf(h.records, a.executionId), offer.value)
        then Held(h.records[a.executionId := LogOf(h.records, a.executionId) + [offer.value]],
                  h.attempts[name := After(a, move, true)])
        else h.(attempts := h.attempts[name := After(a, move, offer.None?)])
  }

  lemma SteppedIsNext(s: Sys, action: Action)
    ensures Held(Next(s, action).records, Next(s, action).attempts) == Stepped(Held(s.records, s.attempts), action)
  {
  }

  /** A step of one call leaves the state of every other call alone. */
  lemma SteppedBesides(records: Records, attempts: map<nat, Attempt>, action: Action, me: nat, a: Attempt)
    requires me !in attempts && action.name != me
    ensures var h, with := Stepped(Held(records, attempts), action), Stepped(Held(records, attempts[me := a]), action);
      && me !in h.attempts && with.records == h.records && with.attempts == h.attempts[me := a]
  {
    hide Enabled, Accepts, Offer, After, Started, Startable;
    assert action.name in attempts <==> action.name in attempts[me := a];
  }

  /** What its own step does to a call: the checkpoint lands exactly when nobody has appended since. */
  lemma SteppedOwn(trace: seq<Action>, records: Records, attempts: map<nat, Attempt>, me: nat, a: Attempt, move: Move,
                   at: int)
    requires me !in attempts && records == Run(trace).records && Run(trace).attempts == attempts[me := a]
    requires Enabled(a, move) && Offer(a, move, at).Some?
    ensures var log := LogOf(records, a.executionId);
      var accepted := Accepts(log, Offer(a, move, at).value);
      && (accepted <==> a.sequence == |log|)
      && Stepped(Held(records, attempts[me := a]), Do(me, move, at))
         == Held(if accepted then records[a.executionId := log + [Offer(a, move, at).value]] else records,
                 attempts[me := After(a, move, accepted)])
  {
    hide Run, LogInv, AttemptInv, Enabled, Accepts, Offer, After;
    assert Run(trace).attempts[me] == a;
    MigrationHistory.AcceptedInRun(trace, me, move, at);
    assert attempts[me := a][me := After(a, move, true)] == attempts[me := After(a, move, true)];
    assert attempts[me := a][me := After(a, move, false)] == attempts[me := After(a, move, false)];
  }

  lemma SteppedQuietly(records: Records, attempts: map<nat, Attempt>, me: nat, a: Attempt, move: Move)
    requires me !in attempts && Enabled(a, move) && Offer(a, move, 0).None?
    ensures Stepped(Held(records, attempts[me := a]), Do(me, move, 0))
      == Held(records, attempts[me := After(a, move, true)])
  {
    hide Enabled, Offer, After;
    assert attempts[me := a][me := After(a, move, true)] == attempts[me := After(a, move, true)];
  }

  /** A recorder and the calls in progress on it; `trace` is the run of the protocol they have made so far. */
  class Site {
    const recorder: InMemoryMigrationRecorder
    var attempts: map<nat, Attempt>
    ghost var trace: seq<Action>

    constructor ()
      ensures Valid() && fresh(recorder) && trace == []
    {
      recorder := new InMemoryMigrationRecorder();
      attempts, trace := map[], [];
    }

    ghost predicate Valid()
      reads this, recorder
    {
      recorder.records == Run(trace).records && attempts == Run(trace).attempts
    }

    /** Valid, except that the call `me` keeps its own state in local variables that amount to `a`. */
    ghost predicate Runs(me: nat, a: Attempt)
      reads this, recorder
    {
      me !in attempts && recorder.records == Run(trace).records && Run(trace).attempts == attempts[me := a]
    }

    method StartCall(name: nat, id: string, bundle: Bundle)
      modifies this`attempts
      ensures Held(recorder.records, attempts)
        == Stepped(Held(recorder.records, old(attempts)), Start(name, id, bundle))
    {
      if name !in attempts && id != "" && bundle.WellFormed() {
        var log := recorder.Checkpoints(id);
        if Startable(log, bundle) { attempts := attempts[name := Started(id, bundle, log)]; }
      }
    }

    method MoveCall(name: nat, move: Move, at: int)
      modifies this`attempts, recorder
      ensures Held(recorder.records, attempts)
        == Stepped(Held(old(recorder.records), old(attempts)), Do(name, move, at))
    {
      if name in attempts && Enabled(attempts[name], move) {
        var offer, accepted := Offer(attempts[name], move, at), true;
        if offer.Some? { accepted := recorder.Append(offer.value); }
        attempts := attempts[name := After(attempts[name], move, accepted)];
      }
    }

    method Perform(action: Action, ghost me: nat, ghost a: Attempt)
      requires Runs(me, a) && action.name != me
      modifies this, recorder
      ensures Runs(me, a) && trace == old(trace) + [action]
    {
      hide Run, Stepped, Next;
      MigrationHistory.RunThen(trace, action);
      SteppedIsNext(Run(trace), action);
      SteppedBesides(recorder.records, attempts, action, me, a);
      match action {
        case Start(name, id, bundle) => StartCall(name, id, bundle);
        case Do(name, move, at) => MoveCall(name, move, at);
      }
      trace := trace + [action];
    }

    /** Other calls run for a while. */
    method Others(actions: seq<Action>, ghost me: nat, ghost a: Attempt)
      requires Runs(me, a) && forall x :: x in actions ==> x.name != me
      modifies this, recorder
      ensures Runs(me, a) && trace == old(trace) + actions
      ensures LogOf(old(recorder.records), a.executionId) <= LogOf(recorder.records, a.executionId)
      ensures actions == [] ==> recorder.records == old(recorder.records)
      ensures forall k: nat :: MigrationHistory.OnlyBy(trace, a.executionId, me, k) ==>
        k <= |LogOf(old(recorder.records), a.executionId)| ==>
          LogOf(recorder.records, a.executionId) == LogOf(old(recorder.records), a.executionId)
      ensures forall k: nat, own: Action ::
        own.name == me && MigrationHistory.OnlyBy(old(trace), a.executionId, me, k) ==>
          LogOf(recorder.records, a.executionId) == LogOf(old(recorder.records), a.executionId) ==>
            MigrationHistory.OnlyBy(trace + [own], a.executionId, me, k)
    {
      hide Run, MigrationHistory.OnlyBy;
      for i := 0 to |actions|
        invariant Runs(me, a) && trace == old(trace) + actions[..i]
        invariant i == 0 ==> recorder.records == old(recorder.records)
      {
        assert old(trace) + actions[..i + 1] == old(trace) + actions[..i] + [actions[i]];
        Perform(actions[i], me, a);
      }
      assert actions[..|actions|] == actions;
      MigrationHistory.RunContinues(old(trace), actions);
      MigrationHistory.LogGrows(Run(old(trace)), actions, a.executionId);
      ghost var start := old(trace);
      forall k: nat | k <= |LogOf(old(recorder.records), a.executionId)|
        && MigrationHistory.OnlyBy(trace, a.executionId, me, k)
        ensures LogOf(recorder.records, a.executionId) == LogOf(old(recorder.records), a.executionId)
      {
        MigrationHistory.OthersAreSilent(start, actions, a.executionId, me, k);
      }
      forall k: nat, own: Action | own.name == me && MigrationHistory.OnlyBy(old(trace), a.executionId, me, k)
        && LogOf(recorder.records, a.executionId) == LogOf(old(recorder.records), a.executionId)
        ensures MigrationHistory.OnlyBy(trace + [own], a.executionId, me, k)
      {
        MigrationHistory.OnlyByOwn(start, actions, own, a.executionId, me, k);
      }
    }

    /** Build and append one checkpoint of the call `me`. */
    method Checkpoint(state: State, sequence: nat, step: Option<Applied>, code: Option<string>, at: int,
                      executionId: string, bundle: Bundle, ghost me: nat, ghost a: Attempt, ghost move: Move)
      returns (accepted: bool)
      requires Runs(me, a) && Enabled(a, move)
      requires Offer(a, move, at)
        == Some(MigrationModel.Checkpoint(executionId, BundleDigest(bundle), state, sequence, step, code, at))
      modifies this, recorder
      ensures Runs(me, After(a, move, accepted)) && trace == old(trace) + [Do(me, move, at)]
      ensures attempts == old(attempts)
      ensures accepted <==> a.sequence == |LogOf(old(recorder.records), a.executionId)|
      ensures !accepted ==> recorder.records == old(recorder.records)
      ensures accepted ==>
        LogOf(recorder.records, executionId) == LogOf(old(recorder.records), executionId) + [Offer(a, move, at).value]
    {
      hide Run, Stepped, Next, Enabled, Accepts;
      MigrationHistory.RunThen(trace, Do(me, move, at));
      SteppedIsNext(Run(trace), Do(me, move, at));
      SteppedOwn(trace, recorder.records, attempts, me, a, move, at);
      accepted := recorder.Append(MigrationModel.Checkpoint(executionId, BundleDigest(bundle), state, sequence, step,
                                                            code, at));
      trace := trace + [Do(me, move, at)];
    }

    /** A step of the call `me` that appends nothing. */
    ghost method Note(me: nat, a: Attempt, move: Move)
      requires Runs(me, a) && Enabled(a, move) && Offer(a, move, 0).None?
      modifies this`trace
      ensures Runs(me, After(a, move, true)) && trace == old(trace) + [Do(me, move, 0)]
      ensures forall k: nat :: MigrationHistory.OnlyBy(old(trace), a.executionId, me, k) ==>
        MigrationHistory.OnlyBy(trace, a.executionId, me, k)
    {
      hide Run, Next, Stepped, Enabled, Offer, After, MigrationHistory.OnlyBy;
      MigrationHistory.OwnStepIsOwn(trace, Do(me, move, 0), a.executionId, me);
      MigrationHistory.RunThen(trace, Do(me, move, 0));
      SteppedIsNext(Run(trace), Do(me, move, 0));
      SteppedQuietly(recorder.records, attempts, me, a, move);
      trace := trace + [Do(me, move, 0)];
    }

    /** The call `me` reads the log and begins. */
    ghost method NoteStart(me: nat, id: string, bundle: Bundle)
      requires Valid() && me !in attempts && id != "" && bundle.WellFormed()
      requires Startable(LogOf(recorder.records, id), bundle)
      modifies this`trace
      ensures Runs(me, Started(id, bundle, LogOf(recorder.records, id)))
      ensures trace == old(trace) + [Start(me, id, bundle)]
      ensures MigrationHistory.OnlyBy(trace, id, me, |LogOf(recorder.records, id)|)
    {
      hide Run, Started, Startable, MigrationHistory.OnlyBy;
      MigrationHistory.OwnStepIsOwn(trace, Start(me, id, bundle), id, me);
      MigrationHistory.RunThen(trace, Start(me, id, bundle));
      trace := trace + [Start(me, id, bundle)];
    }

    /** The call `me` is over. */
    method Leave(me: nat, a: Attempt)
      requires Runs(me, a)
      modifies this`attempts
      ensures Valid() && attempts == old(attempts)[me := a]
    {
      attempts := attempts[me := a];
    }
  }

  const CONFLICT := "MERIDIAN_MIGRATION_CONFLICT"
  const CANCELLED := "MERIDIAN_LIFECYCLE_CANCELLED"
  const CONDITION_FAILED := "MERIDIAN_MIGRATION_FAILED"

  datatype Hook<T> = Gave(value: T) | Threw(code: string)

  datatype BindingState = BindingState(logicalFingerprint: string, activeGeneration: string)

  datatype Lock = Lock(owner: string, bundleDigest: BundleDigest, expiresAt: int)

  datatype Validation = Validation(name: string, passed: bool, resultDigest: string)

  datatype Activation = Activation(activeGeneration: string, previousGeneration: string, targetFingerprint: string,
                                   sourceBoundary: string)

  /** Everything a call learns from outside, and what other calls do before each of its checkpoints. */
  datatype World = World(
    others: nat -> seq<Action>, othersAtFailure: seq<Action>, recordedAt: nat -> int, failedAt: int,
    cancelledAtStart: bool, cancelledAtCondition: string -> bool, cancelledAtStep: nat -> bool,
    cancelledAtActivation: bool, inspected: Hook<BindingState>, conditions: string -> Hook<Validation>,
    lock: Hook<Lock>, lockedAt: int, plan: Hook<CompiledPlan>, stepAt: nat -> int,
    applied: nat -> Hook<Applied>, activatingAt: int, activated: string -> Hook<Activation>,
    plannedEvidence: Option<string>, completedEvidence: Option<string>, failedEvidence: Option<string>)
  {
    /** A step some other call takes during this one. */
    ghost predicate Has(x: Action)
    {
      x in othersAtFailure || exists n: nat :: x in others(n)
    }

    /** The other calls keep to other executions. */
    ghost predicate KeepsOff(attempts: map<nat, Attempt>, id: string)
    {
      forall x :: Has(x) ==> MigrationHistory.Elsewhere(attempts, id, x)
    }

    ghost predicate Foreign(me: nat)
    {
      && (forall x :: x in othersAtFailure ==> x.name != me)
      && (forall n: nat, x :: x in others(n) ==> x.name != me)
    }

    ghost predicate Passes(conditions: seq<Condition>, cancellable: bool)
    {
      forall i :: 0 <= i < |conditions| ==>
        && (cancellable ==> !cancelledAtCondition(conditions[i].name))
        && this.conditions(conditions[i].name).Gave? && this.conditions(conditions[i].name).value.passed
    }

    /** The code of the first condition, from the `i`-th on, that does not pass. */
    function ConditionsCode(conditions: seq<Condition>, cancellable: bool, i: nat): Option<string>
      requires i <= |conditions|
      decreases |conditions| - i
    {
      if i == |conditions| then None
      else
        var name := conditions[i].name;
        if cancellable && cancelledAtCondition(name) then Some(CANCELLED)
        else
          match this.conditions(name)
          case Threw(code) => Some(code)
          case Gave(outcome) =>
            if outcome.passed then ConditionsCode(conditions, cancellable, i + 1) else Some(CONDITION_FAILED)
    }

    /** The code preparation fails with, the earliest check first. */
    function PrepareCode(bundle: Bundle, owner: string): Option<string>
    {
      if cancelledAtStart then Some(CANCELLED)
      else if inspected.Threw? then Some(inspected.code)
      else if inspected.value.logicalFingerprint != bundle.sourceFingerprint then Some(CONFLICT)
      else
        var conditions := ConditionsCode(bundle.preconditions, true, 0);
        if conditions.Some? then conditions
        else if lock.Threw? then Some(lock.code)
        else if lock.value.owner != owner || lock.value.bundleDigest != BundleDigest(bundle) then Some(CONFLICT)
        else if lock.value.expiresAt <= lockedAt then Some(CONFLICT)
        else if plan.Threw? then Some(plan.code)
        else if VerifyCompiled(bundle, plan.value) then None else Some(CONFLICT)
    }

    /** The code the steps from the `i`-th on fail with, when the first `m` are acknowledged already. */
    function StepsCode(bundle: Bundle, m: nat, i: nat): Option<string>
      requires lock.Gave? && i <= |bundle.steps|
      decreases |bundle.steps| - i
    {
      if i == |bundle.steps| then None
      else
        var step := StepCode(bundle, m, i);
        if step.Some? then step else StepsCode(bundle, m, i + 1)
    }

    function StepCode(bundle: Bundle, m: nat, i: nat): Option<string>
      requires lock.Gave? && i < |bundle.steps|
    {
      if cancelledAtStep(i) then Some(CANCELLED)
      else if lock.value.expiresAt <= stepAt(i) then Some(CONFLICT)
      else if i < m then None
      else ApplyCode(bundle, i)
    }

    function ApplyCode(bundle: Bundle, i: nat): Option<string>
      requires i < |bundle.steps|
    {
      if applied(i).Threw? then Some(applied(i).code)
      else if applied(i).value.stepId != bundle.steps[i].stepId then Some(CONFLICT)
      else None
    }

    function ActivateCode(bundle: Bundle): Option<string>
      requires lock.Gave? && inspected.Gave?
    {
      var activation := activated(inspected.value.activeGeneration);
      if cancelledAtActivation then Some(CANCELLED)
      else if lock.value.expiresAt <= activatingAt then Some(CONFLICT)
      else if activation.Threw? then Some(activation.code)
      else if activation.value.targetFingerprint != bundle.targetFingerprint then Some(CONFLICT)
      else ConditionsCode(bundle.postconditions, false, 0)
    }

    /** The code a call fails with, if nobody else appends to its execution. */
    function FailureCode(bundle: Bundle, owner: string, m: nat): Option<string>
    {
      var prepare := PrepareCode(bundle, owner);
      if prepare.Some? || lock.Threw? || inspected.Threw? then prepare
      else if plannedEvidence.Some? then plannedEvidence
      else
        var steps := StepsCode(bundle, m, 0);
        if steps.Some? then steps else FinishCode(bundle)
    }

    function FinishCode(bundle: Bundle): Option<string>
      requires lock.Gave? && inspected.Gave?
    {
      var validations := ConditionsCode(bundle.validations, true, 0);
      if validations.Some? then validations
      else
        var activate := ActivateCode(bundle);
        if activate.Some? then activate else completedEvidence
    }

    ghost predicate Prepares(bundle: Bundle, owner: string)
    {
      && !cancelledAtStart && inspected.Gave? && inspected.value.logicalFingerprint == bundle.sourceFingerprint
      && Passes(bundle.preconditions, true)
      && lock.Gave? && lock.value.owner == owner && lock.value.bundleDigest == BundleDigest(bundle)
      && lock.value.expiresAt > lockedAt && plan.Gave? && VerifyCompiled(bundle, plan.value)
    }

    predicate StepGoes(bundle: Bundle, i: nat)
      requires i < |bundle.steps|
    {
      applied(i).Gave? && applied(i).value.stepId == bundle.steps[i].stepId
    }

    /** The first `k` rounds of the step loop go through when the first `m` steps are acknowledged already. */
    ghost predicate Applies(bundle: Bundle, m: nat, k: nat)
      requires lock.Gave?
    {
      forall i: nat :: i < k ==> StepPasses(bundle, m, i)
    }

    ghost predicate StepPasses(bundle: Bundle, m: nat, i: nat)
      requires lock.Gave?
    {
      !cancelledAtStep(i) && lock.value.expiresAt > stepAt(i) && (m <= i < |bundle.steps| ==> StepGoes(bundle, i))
    }

    lemma AppliesMore(bundle: Bundle, m: nat, i: nat)
      requires lock.Gave? && i < |bundle.steps|
      ensures Applies(bundle, m, i + 1) <==> Applies(bundle, m, i) && StepPasses(bundle, m, i)
      ensures Applies(bundle, m, |bundle.steps|) ==> StepPasses(bundle, m, i)
    {
    }

    /** The steps from the `m`-th up to the `k`-th are in the log from `first` on, with the adapter's own answers. */
    ghost predicate Acknowledged(log: Log, bundle: Bundle, first: nat, m: nat, k: nat)
    {
      forall i: nat :: m <= i < k && i < |bundle.steps| ==> AcknowledgedAt(log, first, m, i)
    }

    predicate AcknowledgedAt(log: Log, first: nat, m: nat, i: nat)
    {
      m <= i && first + i - m < |log| && applied(i).Gave? && log[first + i - m].step == Some(applied(i).value)
    }

    lemma StillAcknowledged(log: Log, longer: Log, bundle: Bundle, first: nat, m: nat, k: nat)
      requires Acknowledged(log, bundle, first, m, k) && log <= longer
      ensures Acknowledged(longer, bundle, first, m, k)
    {
      forall i: nat | m <= i < k && i < |bundle.steps|
        ensures AcknowledgedAt(longer, first, m, i)
      {
        assert AcknowledgedAt(log, first, m, i);
      }
    }

    /**
     * The step loop before its `i`-th round: what is done, where the next checkpoint goes, what the adapter was asked.
     */
    ghost predicate Standing(bundle: Bundle, first: nat, m: nat, i: nat, sequence: nat, calls: seq<string>, log: Log)
      requires lock.Gave? && i <= |bundle.steps|
    {
      && Acknowledged(log, bundle, first, m, i) && Applies(bundle, m, i)
      && sequence == (if i <= m then first else first + i - m)
      && calls == if i <= m then [] else bundle.StepIds()[m..i]
    }

    lemma StandsAtStart(bundle: Bundle, first: nat, m: nat, log: Log)
      requires lock.Gave?
      ensures Standing(bundle, first, m, 0, first, [], log)
    {
    }

    lemma StandsAfterSkip(bundle: Bundle, first: nat, m: nat, i: nat, sequence: nat, calls: seq<string>, log: Log)
      requires lock.Gave? && i < |bundle.steps| && i < m && Standing(bundle, first, m, i, sequence, calls, log)
      requires StepPasses(bundle, m, i)
      ensures Standing(bundle, first, m, i + 1, sequence, calls, log)
    {
      AppliesMore(bundle, m, i);
    }

    lemma StandsAfterStep(bundle: Bundle, first: nat, m: nat, i: nat, sequence: nat, calls: seq<string>, log: Log,
                          longer: Log)
      requires lock.Gave? && m <= i < |bundle.steps| && Standing(bundle, first, m, i, sequence, calls, log)
      requires StepPasses(bundle, m, i)
      requires log <= longer && AcknowledgedAt(longer, sequence, i, i)
      ensures Standing(bundle, first, m, i + 1, sequence + 1, calls + [bundle.steps[i].stepId], longer)
    {
      AppliesMore(bundle, m, i);
      StillAcknowledged(log, longer, bundle, first, m, i);
      assert AcknowledgedAt(longer, first, m, i);
    }

    lemma StandsAtEnd(bundle: Bundle, first: nat, m: nat, sequence: nat, calls: seq<string>, log: Log)
      requires lock.Gave? && Standing(bundle, first, m, |bundle.steps|, sequence, calls, log)
      ensures Acknowledged(log, bundle, first, m, |bundle.steps|) && Applies(bundle, m, |bundle.steps|)
    {
    }

    lemma CallsArePrefix(bundle: Bundle, first: nat, m: nat, i: nat, sequence: nat, calls: seq<string>, log: Log)
      requires lock.Gave? && i <= |bundle.steps| && m <= |bundle.steps|
      requires Standing(bundle, first, m, i, sequence, calls, log)
      ensures calls <= bundle.StepIds()[m..]
      ensures m <= i < |bundle.steps| ==> calls + [bundle.steps[i].stepId] <= bundle.StepIds()[m..]
    {
    }

    ghost predicate Finishes(bundle: Bundle)
      requires lock.Gave? && inspected.Gave?
    {
      Passes(bundle.validations, true) && Activated(bundle) && completedEvidence.None?
    }

    ghost predicate Succeeds(bundle: Bundle, owner: string, m: nat)
    {
      && Prepares(bundle, owner) && plannedEvidence.None? && Applies(bundle, m, |bundle.steps|)
      && Finishes(bundle)
    }

    /** The validations of a report: the outcomes of these conditions, in order, every one of them passed. */
    ghost predicate Reports(validations: seq<Validation>, conditions: seq<Condition>)
    {
      && |validations| == |conditions|
      && forall i :: 0 <= i < |validations| ==>
        Gave(validations[i]) == this.conditions(conditions[i].name) && validations[i].passed
    }

    ghost predicate Activated(bundle: Bundle)
      requires lock.Gave? && inspected.Gave?
    {
      && !cancelledAtActivation && lock.value.expiresAt > activatingAt
      && activated(inspected.value.activeGeneration).Gave?
      && activated(inspected.value.activeGeneration).value.targetFingerprint == bundle.targetFingerprint
      && Passes(bundle.postconditions, false)
    }
  }

  datatype Cutover = Cutover(
    executionId: string, bundleDigest: BundleDigest, sourceFingerprint: string, targetFingerprint: string,
    sourceBoundary: string, previousGeneration: string, activeGeneration: string, validationReport: seq<Validation>)

  datatype Outcome = Report(checkpoints: Log, validations: seq<Validation>, cutover: Cutover) | Error(code: string)

  class Execution {
    const site: Site
    const world: World

    constructor (site: Site, world: World)
      ensures this.site == site && this.world == world
    {
      this.site, this.world := site, world;
    }

    /** Run conditions in order until one is cancelled, raises or fails. */
    method RunConditions(conditions: seq<Condition>, cancellable: bool)
      returns (error: Option<string>, outcomes: seq<Validation>)
      ensures error.None? <==> world.Passes(conditions, cancellable)
      ensures error == world.ConditionsCode(conditions, cancellable, 0)
      ensures error.None? ==> world.Reports(outcomes, conditions)
    {
      outcomes := [];
      for i := 0 to |conditions|
        invariant world.Passes(conditions[..i], cancellable) && world.Reports(outcomes, conditions[..i])
        invariant world.ConditionsCode(conditions, cancellable, 0) == world.ConditionsCode(conditions, cancellable, i)
      {
        var name := conditions[i].name;
        if cancellable && world.cancelledAtCondition(name) { return Some(CANCELLED), outcomes; }
        var outcome := world.conditions(name);
        if outcome.Threw? { return Some(outcome.code), outcomes; }
        outcomes := outcomes + [outcome.value];
        if !outcome.value.passed { return Some(CONDITION_FAILED), outcomes; }
        assert conditions[..i + 1] == conditions[..i] + [conditions[i]];
      }
      assert conditions[..|conditions|] == conditions;
      error := None;
    }

    /** From the start of the `try` block to the verified plan: nothing is recorded yet. */
    method Prepare(bundle: Bundle, owner: string)
      returns (error: Option<string>, validations: seq<Validation>, acquired: bool)
      ensures error.None? <==> world.Prepares(bundle, owner)
      ensures error == world.PrepareCode(bundle, owner)
      ensures error.None? ==> acquired
      ensures acquired ==> world.lock.Gave? && world.Passes(bundle.preconditions, true)
      ensures error.None? ==> world.Reports(validations, bundle.preconditions)
    {
      validations, acquired := [], false;
      if world.cancelledAtStart { return Some(CANCELLED), [], false; }
      var state := world.inspected;
      if state.Threw? { return Some(state.code), [], false; }
      if state.value.logicalFingerprint != bundle.sourceFingerprint { return Some(CONFLICT), [], false; }
      error, validations := RunConditions(bundle.preconditions, true);
      if error.Some? { return; }
      var lock := world.lock;
      if lock.Threw? { return Some(lock.code), validations, false; }
      acquired := true;
      if lock.value.owner != owner || lock.value.bundleDigest != BundleDigest(bundle) {
        return Some(CONFLICT), validations, true;
      }
      if lock.value.expiresAt <= world.lockedAt { return Some(CONFLICT), validations, true; }
      var plan := world.plan;
      if plan.Threw? { return Some(plan.code), validations, true; }
      if !VerifyCompiled(bundle, plan.value) { return Some(CONFLICT), validations, true; }
    }

    ghost predicate UpToDate(a: Attempt)
      reads site, site.recorder
    {
      a.sequence == |LogOf(site.recorder.records, a.executionId)|
    }

    ghost function Entries(executionId: string): Log
      reads site, site.recorder
    {
      LogOf(site.recorder.records, executionId)
    }

    /** Only this call has appended to its execution's log since it held `k` entries. */
    ghost predicate Mine(me: nat, executionId: string, k: nat)
      reads site
    {
      MigrationHistory.OnlyBy(site.trace, executionId, me, k)
    }

    /** Somebody else has overtaken this call, or nobody else has appended since it began. */
    ghost predicate Sound(me: nat, a: Attempt, k: nat)
      reads site, site.recorder
    {
      || a.sequence < |Entries(a.executionId)|
      || (a.sequence == |Entries(a.executionId)| && Mine(me, a.executionId, k))
    }

    /** The run has gone on by steps of this call and of the others. */
    ghost predicate Went(me: nat, before: seq<Action>, after: seq<Action>)
    {
      before <= after && forall i :: |before| <= i < |after| ==> after[i].name == me || world.Has(after[i])
    }

    /** Two stretches make one, and what only one call has done by the end only it had done in between. */
    lemma WentOn(me: nat, a: seq<Action>, b: seq<Action>, c: seq<Action>, executionId: string, k: nat)
      requires Went(me, a, b) && Went(me, b, c)
      ensures Went(me, a, c)
      ensures MigrationHistory.OnlyBy(c, executionId, me, k) ==> MigrationHistory.OnlyBy(b, executionId, me, k)
    {
      hide MigrationHistory.OnlyBy;
      assert c == b + c[|b|..];
      if MigrationHistory.OnlyBy(c, executionId, me, k) {
        MigrationHistory.StillOnlyBy(b, c[|b|..], executionId, me, k);
      }
    }

    lemma WentBy(me: nat, trace: seq<Action>, move: Move)
      ensures Went(me, trace, trace) && Went(me, trace, trace + [Do(me, move, 0)])
    {
    }

    /** Append one checkpoint, other calls having had their turn before it. */
    method Record(me: nat, executionId: string, bundle: Bundle, state: State, sequence: nat, step: Option<Applied>,
                  ghost a: Attempt, ghost move: Move, ghost k: nat)
      returns (accepted: bool, ghost b: Attempt)
      requires site.Runs(me, a) && world.Foreign(me) && Enabled(a, move) && a.executionId == executionId
      requires k <= |Entries(executionId)|
      requires Offer(a, move, world.recordedAt(sequence))
        == Some(Checkpoint(executionId, BundleDigest(bundle), state, sequence, step, None, world.recordedAt(sequence)))
      modifies site, site.recorder
      ensures site.Runs(me, b) && b == After(a, move, accepted)
      ensures accepted ==> |LogOf(site.recorder.records, executionId)| == a.sequence + 1
      ensures old(Entries(executionId)) <= Entries(executionId)
      ensures accepted ==>
        Entries(executionId)[a.sequence].state == state && Entries(executionId)[a.sequence].step == step
      ensures accepted ==> LogOf(site.recorder.records, executionId)[a.sequence].bundleDigest == BundleDigest(bundle)
      ensures Went(me, old(site.trace), site.trace)
      ensures old(UpToDate(a)) && Mine(me, executionId, k) ==> accepted
      ensures !accepted && Mine(me, executionId, k) ==> Entries(executionId) == old(Entries(executionId))
      ensures old(Sound(me, a, k)) ==>
        if accepted then Mine(me, executionId, k) else a.sequence < |Entries(executionId)|
    {
      hide Offer, After, Enabled, Run, Site.Runs, MigrationHistory.OnlyBy;
      site.Others(world.others(sequence), me, a);
      ghost var middle := site.trace;
      accepted := site.Checkpoint(state, sequence, step, None, world.recordedAt(sequence), executionId, bundle, me, a,
                                  move);
      b := After(a, move, accepted);
      if Mine(me, executionId, k) {
        MigrationHistory.StillOnlyBy(middle, [Do(me, move, world.recordedAt(sequence))], executionId, me, k);
      }
    }

    /** Apply one step nobody acknowledged before, and record what the adapter answered. */
    method ApplyStep(me: nat, executionId: string, bundle: Bundle, first: nat, completed: set<string>, i: nat,
                     ghost a: Attempt, ghost k: nat)
      returns (error: Option<string>, sequence: nat, ghost b: Attempt)
      requires site.Runs(me, a) && world.Foreign(me) && i < |bundle.steps| && bundle.steps[i].stepId !in completed
      requires a == Attempt(executionId, bundle, first, completed, Stepping(i))
      requires k <= |Entries(executionId)|
      modifies site, site.recorder
      ensures Went(me, old(site.trace), site.trace)
      ensures site.Runs(me, b) && b == Attempt(executionId, bundle, sequence, completed, b.phase)
      ensures error.None? ==> b.phase == Stepping(i + 1) && world.StepGoes(bundle, i)
      ensures old(Entries(executionId)) <= Entries(executionId)
      ensures error.None? ==> sequence == first + 1 <= |Entries(executionId)|
      ensures error.None? ==> world.AcknowledgedAt(Entries(executionId), first, i, i)
      ensures error.Some? ==> b.phase.Stepping? || b.phase.Failing?
      ensures old(Sound(me, a, k)) ==> Sound(me, b, k)
      ensures Mine(me, executionId, k) && old(UpToDate(a)) ==>
        UpToDate(b) && (world.StepGoes(bundle, i) ==> error.None?) && error == world.ApplyCode(bundle, i)
    {
      hide Run, Site.Runs, World.Foreign, MigrationHistory.OnlyBy, Went;
      sequence, b := first, a;
      WentBy(me, site.trace, Raise);
      var applied := world.applied(i);
      if applied.Threw? { return Some(applied.code), sequence, b; }
      if applied.value.stepId != bundle.steps[i].stepId { return Some(CONFLICT), sequence, b; }
      var accepted;
      accepted, b := Record(me, executionId, bundle, State.Applying, sequence, Some(applied.value), b,
                            Apply(applied.value), k);
      if !accepted { return Some(CONFLICT), sequence, b; }
      sequence := sequence + 1;
      error := None;
    }

    /** One round of the step loop: cancellation, lock expiry, then pass over or apply. */
    method ApplyRound(me: nat, executionId: string, bundle: Bundle, here: nat, completed: set<string>, i: nat,
                      ghost first: nat, ghost m: nat, ghost before: seq<string>, ghost a: Attempt,
                      ghost k: nat)
      returns (error: Option<string>, sequence: nat, ghost b: Attempt, ghost calls: seq<string>)
      requires site.Runs(me, a) && world.Foreign(me) && world.lock.Gave? && bundle.WellFormed() && i < |bundle.steps|
      requires a == Attempt(executionId, bundle, here, completed, Stepping(i)) && Done(bundle.StepIds(), completed, m)
      requires world.Standing(bundle, first, m, i, here, before, Entries(executionId))
      requires k <= |Entries(executionId)|
      modifies site, site.recorder
      ensures Went(me, old(site.trace), site.trace)
      ensures site.Runs(me, b) && b == Attempt(executionId, bundle, sequence, completed, b.phase)
      ensures error.None? ==>
        b.phase == Stepping(i + 1) && world.Standing(bundle, first, m, i + 1, sequence, calls, Entries(executionId))
      ensures error.Some? ==> b.phase.Stepping? || b.phase.Failing?
      ensures error.None? ==> world.StepPasses(bundle, m, i)
      ensures calls <= bundle.StepIds()[m..]
      ensures old(Entries(executionId)) <= Entries(executionId)
      ensures old(Sound(me, a, k)) ==> Sound(me, b, k)
      ensures Mine(me, executionId, k) && old(UpToDate(a)) ==>
        UpToDate(b) && (world.StepPasses(bundle, m, i) ==> error.None?) && error == world.StepCode(bundle, m, i)
    {
      hide Run, Site.Runs, Done, World.Foreign, MigrationHistory.OnlyBy, Went, World.Applies, World.Acknowledged,
        World.AcknowledgedAt, World.Standing, LogOf, Offer, World.StepGoes;
      sequence, b, calls := here, a, before;
      WentBy(me, site.trace, Skip);
      DoneIsWithin(bundle.StepIds(), completed, m);
      StepNotDone(bundle.StepIds(), completed, m, i);
      world.CallsArePrefix(bundle, first, m, i, here, before, Entries(executionId));
      if world.cancelledAtStep(i) { return Some(CANCELLED), sequence, b, calls; }
      if world.lock.value.expiresAt <= world.stepAt(i) { return Some(CONFLICT), sequence, b, calls; }
      if bundle.steps[i].stepId in completed {
        SkipOffersNothing(b);
        site.Note(me, b, Skip);
        b := After(b, Skip, true);
        world.StandsAfterSkip(bundle, first, m, i, here, before, Entries(executionId));
        return None, sequence, b, calls;
      }
      ghost var entries := Entries(executionId);
      calls := before + [bundle.steps[i].stepId];
      error, sequence, b := ApplyStep(me, executionId, bundle, here, completed, i, b, k);
      if error.None? { world.StandsAfterStep(bundle, first, m, i, here, before, entries, Entries(executionId)); }
    }

    /**
     * The loop over the compiled steps. A step acknowledged before is passed over; the adapter is asked for the others
     * only, in order.
     */
    method ApplySteps(me: nat, executionId: string, bundle: Bundle, first: nat, completed: set<string>,
                      ghost a: Attempt, ghost m: nat, ghost k: nat)
      returns (error: Option<string>, sequence: nat, ghost b: Attempt, ghost calls: seq<string>)
      requires site.Runs(me, a) && world.Foreign(me) && world.lock.Gave? && bundle.WellFormed()
      requires a == Attempt(executionId, bundle, first, completed, Stepping(0)) && Done(bundle.StepIds(), completed, m)
      requires k <= |Entries(executionId)|
      modifies site, site.recorder
      ensures Went(me, old(site.trace), site.trace)
      ensures site.Runs(me, b) && b == Attempt(executionId, bundle, sequence, completed, b.phase)
      ensures error.None? ==> b.phase == Stepping(|bundle.steps|)
      ensures error.Some? ==> b.phase.Stepping? || b.phase.Failing?
      ensures error.None? ==> world.Applies(bundle, m, |bundle.steps|)
      ensures error.None? ==> world.Acknowledged(Entries(executionId), bundle, first, m, |bundle.steps|)
      ensures old(Entries(executionId)) <= Entries(executionId)
      ensures calls <= bundle.StepIds()[m..]
      ensures old(Sound(me, a, k)) ==> Sound(me, b, k)
      ensures Mine(me, executionId, k) && old(UpToDate(a)) ==>
        && UpToDate(b) && (world.Applies(bundle, m, |bundle.steps|) ==> error.None?)
        && error == world.StepsCode(bundle, m, 0)
    {
      hide Run, Site.Runs, Done, World.Foreign, MigrationHistory.OnlyBy, Went, World.Applies, World.Acknowledged,
        World.AcknowledgedAt, World.Standing, LogOf, World.StepPasses;
      sequence, b, calls := first, a, [];
      ghost var start := site.trace;
      WentBy(me, start, Skip);
      DoneIsWithin(bundle.StepIds(), completed, m);
      world.StandsAtStart(bundle, first, m, Entries(executionId));
      for i := 0 to |bundle.steps|
        invariant site.Runs(me, b) && b == Attempt(executionId, bundle, sequence, completed, Stepping(i))
        invariant world.Standing(bundle, first, m, i, sequence, calls, Entries(executionId))
        invariant calls <= bundle.StepIds()[m..] && old(Entries(executionId)) <= Entries(executionId)
        invariant Went(me, start, site.trace) && (old(Sound(me, a, k)) ==> Sound(me, b, k))
        invariant Mine(me, executionId, k) && old(UpToDate(a)) ==>
          UpToDate(b) && world.StepsCode(bundle, m, 0) == world.StepsCode(bundle, m, i)
      {
        world.AppliesMore(bundle, m, i);
        ghost var sofar := site.trace;
        error, sequence, b, calls := ApplyRound(me, executionId, bundle, sequence, completed, i, first, m, calls, b, k);
        WentOn(me, start, sofar, site.trace, executionId, k);
        if error.Some? { return; }
      }
      world.StandsAtEnd(bundle, first, m, sequence, calls, Entries(executionId));
      error := None;
    }

    /** VALIDATING, the bundle's validations, ACTIVATING. */
    method Validate(me: nat, executionId: string, bundle: Bundle, first: nat, before: seq<Validation>, ghost a: Attempt,
                    ghost k: nat)
      returns (error: Option<string>, sequence: nat, validations: seq<Validation>, ghost b: Attempt)
      requires site.Runs(me, a) && world.Foreign(me) && world.Reports(before, bundle.preconditions)
      requires a.phase == Stepping(|bundle.steps|) && a.executionId == executionId && a.bundle == bundle
      requires a.sequence == first
      requires k <= |Entries(executionId)|
      modifies site, site.recorder
      ensures Went(me, old(site.trace), site.trace)
      ensures site.Runs(me, b) && b == a.(sequence := sequence, phase := b.phase)
      ensures error.None? ==> b.phase.Switching? && world.Passes(bundle.validations, true)
      ensures error.None? ==> world.Reports(validations, bundle.preconditions + bundle.validations)
      ensures error.Some? ==> b.phase.Stepping? || b.phase.Checking? || b.phase.Failing?
      ensures old(Entries(executionId)) <= Entries(executionId)
      ensures old(Sound(me, a, k)) ==> Sound(me, b, k)
      ensures Mine(me, executionId, k) && old(UpToDate(a)) ==>
        && UpToDate(b) && (world.Passes(bundle.validations, true) ==> error.None?)
        && error == world.ConditionsCode(bundle.validations, true, 0)
    {
      hide Run, Site.Runs, World.Foreign, MigrationHistory.OnlyBy, Went, World.Passes, World.Reports;
      sequence, validations, b := first, before, a;
      ghost var start := site.trace;
      var accepted;
      accepted, b := Record(me, executionId, bundle, State.Validating, sequence, None, b, Move.Validate, k);
      ghost var middle := site.trace;
      if !accepted { return Some(CONFLICT), sequence, validations, b; }
      sequence := sequence + 1;
      var outcomes;
      error, outcomes := RunConditions(bundle.validations, true);
      if error.Some? { return; }
      ReportsMore(validations, bundle.preconditions, outcomes, bundle.validations);
      validations := validations + outcomes;
      accepted, b := Record(me, executionId, bundle, State.Activating, sequence, None, b, Move.Activate, k);
      WentOn(me, start, middle, site.trace, executionId, k);
      if !accepted { return Some(CONFLICT), sequence, validations, b; }
      sequence := sequence + 1;
    }

    /** Activate the target schema and check it; a cancellation no longer stops the postconditions. */
    method Activate(executionId: string, bundle: Bundle, before: seq<Validation>)
      returns (error: Option<string>, validations: seq<Validation>, cutover: Option<Cutover>)
      requires world.lock.Gave? && world.inspected.Gave?
      requires world.inspected.value.logicalFingerprint == bundle.sourceFingerprint
      requires world.Reports(before, bundle.preconditions + bundle.validations)
      ensures error.None? <==> world.Activated(bundle)
      ensures error == world.ActivateCode(bundle)
      ensures error.None? ==>
        world.Reports(validations, bundle.preconditions + bundle.validations + bundle.postconditions)
      ensures error.None? ==> cutover.Some? && CutoverOf(cutover.value, executionId, bundle, validations)
    {
      hide World.Passes, World.Reports;
      validations, cutover := before, None;
      if world.cancelledAtActivation { return Some(CANCELLED), validations, None; }
      if world.lock.value.expiresAt <= world.activatingAt { return Some(CONFLICT), validations, None; }
      var activation := world.activated(world.inspected.value.activeGeneration);
      if activation.Threw? { return Some(activation.code), validations, None; }
      if activation.value.targetFingerprint != bundle.targetFingerprint { return Some(CONFLICT), validations, None; }
      var outcomes;
      error, outcomes := RunConditions(bundle.postconditions, false);
      if error.Some? { return; }
      ReportsMore(validations, bundle.preconditions + bundle.validations, outcomes, bundle.postconditions);
      validations := validations + outcomes;
      cutover := Some(MakeCutover(executionId, bundle, activation.value, validations));
    }

    /** PLANNED, its evidence, and the step loop. */
    method PlanAndApply(me: nat, executionId: string, bundle: Bundle, first: nat, completed: set<string>,
                        ghost a: Attempt, ghost m: nat, ghost k: nat)
      returns (error: Option<string>, sequence: nat, ghost b: Attempt, ghost calls: seq<string>)
      requires site.Runs(me, a) && world.Foreign(me) && world.lock.Gave? && bundle.WellFormed()
      requires a == Attempt(executionId, bundle, first, completed, Preparing) && Done(bundle.StepIds(), completed, m)
      requires k <= |Entries(executionId)|
      modifies site, site.recorder
      ensures Went(me, old(site.trace), site.trace)
      ensures site.Runs(me, b) && b == Attempt(executionId, bundle, sequence, completed, b.phase)
      ensures calls <= bundle.StepIds()[m..]
      ensures error.None? ==>
        b.phase == Stepping(|bundle.steps|) && world.plannedEvidence.None? && world.Applies(bundle, m, |bundle.steps|)
      ensures error.None? ==> world.Acknowledged(Entries(executionId), bundle, first + 1, m, |bundle.steps|)
      ensures old(Entries(executionId)) <= Entries(executionId)
      ensures error.Some? ==> b.phase.Stepping? || b.phase.Failing?
      ensures old(Sound(me, a, k)) ==> Sound(me, b, k)
      ensures Mine(me, executionId, k) && old(UpToDate(a)) ==>
        && UpToDate(b) && (world.plannedEvidence.None? && world.Applies(bundle, m, |bundle.steps|) ==> error.None?)
        && error == if world.plannedEvidence.Some? then world.plannedEvidence else world.StepsCode(bundle, m, 0)
    {
      hide Run, Site.Runs, World.Foreign, MigrationHistory.OnlyBy, Went, World.Applies, World.Acknowledged, Done;
      sequence, b, calls := first, a, [];
      ghost var start := site.trace;
      var accepted;
      accepted, b := Record(me, executionId, bundle, State.Planned, sequence, None, b, Plan, k);
      ghost var middle := site.trace;
      if !accepted { return Some(CONFLICT), sequence, b, calls; }
      sequence := sequence + 1;
      if world.plannedEvidence.Some? { return world.plannedEvidence, sequence, b, calls; }
      error, sequence, b, calls := ApplySteps(me, executionId, bundle, sequence, completed, b, m, k);
      WentOn(me, start, middle, site.trace, executionId, k);
    }

    /** Validation, activation and COMPLETED. */
    method ValidateAndComplete(me: nat, executionId: string, bundle: Bundle, first: nat, before: seq<Validation>,
                               ghost a: Attempt, ghost k: nat)
      returns (error: Option<string>, sequence: nat, validations: seq<Validation>, cutover: Option<Cutover>,
               ghost b: Attempt)
      requires site.Runs(me, a) && world.Foreign(me) && world.Reports(before, bundle.preconditions)
      requires world.lock.Gave? && world.inspected.Gave?
      requires world.inspected.value.logicalFingerprint == bundle.sourceFingerprint
      requires a.phase == Stepping(|bundle.steps|) && a.executionId == executionId && a.bundle == bundle
      requires a.sequence == first
      requires k <= |Entries(executionId)|
      modifies site, site.recorder
      ensures Went(me, old(site.trace), site.trace)
      ensures site.Runs(me, b) && b == a.(sequence := sequence, phase := b.phase) && !b.phase.Ended?
      ensures error.None? ==> b.phase.Closing? && world.Finishes(bundle)
      ensures error.None? ==>
        world.Reports(validations, bundle.preconditions + bundle.validations + bundle.postconditions)
      ensures error.None? ==> cutover.Some? && CutoverOf(cutover.value, executionId, bundle, validations)
      ensures b.phase.Closing? ==> CompletedAt(Entries(executionId), sequence, bundle)
      ensures old(Entries(executionId)) <= Entries(executionId)
      ensures old(Sound(me, a, k)) ==> if b.phase.Closing? then Mine(me, executionId, k) else Sound(me, b, k)
      ensures Mine(me, executionId, k) && old(UpToDate(a)) && !b.phase.Closing? ==> UpToDate(b)
      ensures Mine(me, executionId, k) && old(UpToDate(a)) && world.Finishes(bundle) ==> error.None?
      ensures Mine(me, executionId, k) && old(UpToDate(a)) ==> error == world.FinishCode(bundle)
      ensures b.phase.Closing? ==> error == world.completedEvidence
    {
      hide Run, Site.Runs, World.Foreign, MigrationHistory.OnlyBy, Went, World.Passes, World.Reports, World.Activated,
        CutoverOf;
      cutover := None;
      ghost var start := site.trace;
      error, sequence, validations, b := Validate(me, executionId, bundle, first, before, a, k);
      ghost var middle := site.trace;
      if error.Some? { return; }
      error, validations, cutover := Activate(executionId, bundle, validations);
      if error.Some? { return; }
      var accepted;
      accepted, b := Record(me, executionId, bundle, State.Completed, sequence, None, b, Complete, k);
      WentOn(me, start, middle, site.trace, executionId, k);
      if !accepted { return Some(CONFLICT), sequence, validations, cutover, b; }
      error := world.completedEvidence;
    }

    /** The `try` block. */
    method Work(me: nat, executionId: string, bundle: Bundle, owner: string, first: nat, completed: set<string>,
                ghost a: Attempt, ghost m: nat, ghost k: nat)
      returns (error: Option<string>, sequence: nat, validations: seq<Validation>, cutover: Option<Cutover>,
               ghost b: Attempt, ghost calls: seq<string>)
      requires site.Runs(me, a) && world.Foreign(me) && bundle.WellFormed()
      requires a == Attempt(executionId, bundle, first, completed, Preparing) && Done(bundle.StepIds(), completed, m)
      requires k <= |Entries(executionId)|
      modifies site, site.recorder
      ensures Went(me, old(site.trace), site.trace)
      ensures site.Runs(me, b) && b == Attempt(executionId, bundle, sequence, completed, b.phase) && !b.phase.Ended?
      ensures calls <= bundle.StepIds()[m..]
      ensures error.None? ==> b.phase.Closing? && world.Succeeds(bundle, owner, m)
      ensures error.None? ==>
        world.Reports(validations, bundle.preconditions + bundle.validations + bundle.postconditions)
      ensures error.None? ==> cutover.Some? && CutoverOf(cutover.value, executionId, bundle, validations)
      ensures error.None? ==> world.Acknowledged(Entries(executionId), bundle, first + 1, m, |bundle.steps|)
      ensures old(Entries(executionId)) <= Entries(executionId)
      ensures b.phase.Closing? ==> CompletedAt(LogOf(site.recorder.records, executionId), sequence, bundle)
      ensures old(Sound(me, a, k)) ==> if b.phase.Closing? then Mine(me, executionId, k) else Sound(me, b, k)
      ensures Mine(me, executionId, k) && old(UpToDate(a)) && !b.phase.Closing? ==> UpToDate(b)
      ensures Mine(me, executionId, k) && old(UpToDate(a)) && world.Succeeds(bundle, owner, m) ==> error.None?
      ensures Mine(me, executionId, k) && old(UpToDate(a)) ==> error == world.FailureCode(bundle, owner, m)
      ensures b.phase.Closing? ==> error == world.completedEvidence
    {
      hide Run, Site.Runs, World.Foreign, MigrationHistory.OnlyBy, Went, World.Passes, World.Reports, World.Applies,
        World.Acknowledged, World.Finishes, Done, CutoverOf;
      sequence, validations, cutover, b, calls := first, [], None, a, [];
      ghost var start := site.trace;
      WentBy(me, start, Skip);
      var acquired;
      error, validations, acquired := Prepare(bundle, owner);
      if error.Some? { return; }
      error, sequence, b, calls := PlanAndApply(me, executionId, bundle, sequence, completed, b, m, k);
      if error.Some? { return; }
      ghost var entries, middle := Entries(executionId), site.trace;
      error, sequence, validations, cutover, b :=
        ValidateAndComplete(me, executionId, bundle, sequence, validations, b, k);
      WentOn(me, start, middle, site.trace, executionId, k);
      world.StillAcknowledged(entries, Entries(executionId), bundle, first + 1, m, |bundle.steps|);
    }

    /** The `except` block: raise, record FAILED under the sequence that did not get used up, tell the evidence sink. */
    method Fail(me: nat, executionId: string, bundle: Bundle, sequence: nat, completed: set<string>, code: string,
                ghost a: Attempt, ghost k: nat)
      returns (raised: string, recorded: bool, ghost b: Attempt)
      requires site.Runs(me, a) && world.Foreign(me) && a == Attempt(executionId, bundle, sequence, completed, a.phase)
      requires !a.phase.Ended? && k <= |Entries(executionId)|
      modifies site, site.recorder
      ensures Went(me, old(site.trace), site.trace)
      ensures site.Runs(me, b) && b == Attempt(executionId, bundle, sequence, completed, Ended)
      ensures recorded ==> FailedAt(LogOf(site.recorder.records, executionId), sequence, code)
      ensures old(a.sequence < |LogOf(site.recorder.records, executionId)|) ==> !recorded
      ensures raised ==
        if !recorded then CONFLICT else if world.failedEvidence.Some? then world.failedEvidence.value else code
      ensures Mine(me, executionId, k) ==> (recorded <==> old(UpToDate(a)))
      ensures Mine(me, executionId, k) && !recorded ==> Entries(executionId) == old(Entries(executionId))
      ensures old(Sound(me, a, k)) && recorded ==> Mine(me, executionId, k)
    {
      hide Run, Site.Runs, MigrationHistory.OnlyBy;
      b := a;
      if a.phase != Failing {
        site.Note(me, a, Raise);
        b := After(a, Raise, true);
      }
      site.Others(world.othersAtFailure, me, b);
      ghost var middle := site.trace;
      recorded := site.Checkpoint(State.Failed, sequence, None, Some(code), world.failedAt, executionId, bundle, me, b,
                                  RecordFailure(code));
      b := After(b, RecordFailure(code), recorded);
      if Mine(me, executionId, k) {
        MigrationHistory.StillOnlyBy(middle, [Do(me, RecordFailure(code), world.failedAt)], executionId, me, k);
      }
      raised := if !recorded then CONFLICT else if world.failedEvidence.Some? then world.failedEvidence.value else code;
    }

    /** The step ids a previous attempt got acknowledged. */
    method CompletedSteps(existing: Log) returns (completed: set<string>)
      ensures completed == set x | x in AppliedIds(existing)
    {
      completed := {};
      for i := 0 to |existing|
        invariant completed == set x | x in AppliedIds(existing[..i])
      {
        assert existing[..i + 1][..i] == existing[..i];
        var item := existing[i];
        if item.state.Applying? && item.step.Some? { completed := completed + {item.step.value.stepId}; }
      }
      assert existing[..|existing|] == existing;
    }

    /**
     * One call from beginning to end. It reports only a migration that is recorded as completed with every step
     * acknowledged; it asks the adapter only for steps no earlier attempt got acknowledged. As long as nobody else
     * appends to this execution, whatever happens to others, it succeeds exactly when everything outside does, and
     * otherwise leaves FAILED as the last entry unless it had completed. Once somebody else has, it ends in a conflict.
     */
    method Execute(me: nat, bindingRef: string, bundle: Bundle, owner: string, executionId: string)
      returns (outcome: Outcome, ghost began: bool, ghost calls: seq<string>)
      requires site.Valid() && me !in site.attempts && world.Foreign(me) && bundle.WellFormed()
      modifies site, site.recorder
      ensures site.Valid()
      ensures began <==>
        && bindingRef != "" && owner != "" && executionId != ""
        && Startable(old(LogOf(site.recorder.records, executionId)), bundle)
      ensures !began ==>
        outcome == Error(if bindingRef == "" || owner == "" || executionId == "" then "ValueError" else CONFLICT)
      ensures !began ==> outcome.Error? && calls == [] && site.recorder.records == old(site.recorder.records)
      ensures began ==> me in site.attempts && site.attempts[me].phase.Ended?
      ensures began ==> old(AppliedIds(LogOf(site.recorder.records, executionId))) + calls <= bundle.StepIds()
      ensures outcome.Report? ==> var existing := old(LogOf(site.recorder.records, executionId));
        world.Acknowledged(outcome.checkpoints, bundle, |existing| + 1, |AppliedIds(existing)|, |bundle.steps|)
      ensures outcome.Report? ==>
        && world.Succeeds(bundle, owner, old(|AppliedIds(LogOf(site.recorder.records, executionId))|))
        && outcome.checkpoints == LogOf(site.recorder.records, executionId)
        && CompletedAt(outcome.checkpoints, site.attempts[me].sequence, bundle)
        && AppliedIds(outcome.checkpoints) == bundle.StepIds()
        && world.Reports(outcome.validations, bundle.preconditions + bundle.validations + bundle.postconditions)
        && CutoverOf(outcome.cutover, executionId, bundle, outcome.validations)
      ensures began && world.KeepsOff(old(site.attempts), executionId) ==>
        Mine(me, executionId, old(|Entries(executionId)|))
      ensures began && !Mine(me, executionId, old(|Entries(executionId)|)) ==> outcome == Error(CONFLICT)
      ensures began && Mine(me, executionId, old(|Entries(executionId)|)) ==>
        (outcome.Report?
         <==> world.Succeeds(bundle, owner, old(|AppliedIds(LogOf(site.recorder.records, executionId))|)))
      ensures began && Mine(me, executionId, old(|Entries(executionId)|)) && outcome.Error? ==>
        EndedBadly(LogOf(site.recorder.records, executionId), site.attempts[me].sequence, outcome.code,
                   world.FailureCode(bundle, owner, old(|AppliedIds(Entries(executionId))|)))
    {
      hide Run, AppliedIds, World.Foreign, World.KeepsOff, World.FailureCode, MigrationHistory.OnlyBy, Went,
        World.Succeeds, World.Reports, World.Acknowledged, Done, CutoverOf, Started, Startable, Site.Runs;
      began, calls := false, [];
      if bindingRef == "" || owner == "" || executionId == "" { return Error("ValueError"), false, []; }
      var existing := site.recorder.Checkpoints(executionId);
      if !Startable(existing, bundle) { return Error(CONFLICT), false, []; }
      began := true;
      FreshAttempt(site.trace, executionId, bundle);
      ghost var m, k, start := |AppliedIds(existing)|, |existing|, site.trace;
      var sequence := if existing == [] then 0 else existing[|existing| - 1].sequence + 1;
      var completed := CompletedSteps(existing);
      site.NoteStart(me, executionId, bundle);
      ghost var middle := site.trace;
      ghost var a := Started(executionId, bundle, existing);
      StartedWith(executionId, bundle, existing);
      var error, validations, cutover;
      error, sequence, validations, cutover, a, calls :=
        Work(me, executionId, bundle, owner, sequence, completed, a, m, k);
      ghost var worked := site.trace;
      PrefixCalls(AppliedIds(existing), calls, bundle.StepIds());
      if error.Some? {
        var raised, recorded;
        raised, recorded, a := Fail(me, executionId, bundle, sequence, completed, error.value, a, k);
        outcome := Error(raised);
      } else {
        WentBy(me, worked, Return);
        site.Note(me, a, Return);
        var checkpoints := site.recorder.Checkpoints(executionId);
        outcome := Report(checkpoints, validations, cutover.value);
      }
      WentOn(me, middle, worked, site.trace, executionId, k);
      KeptOff(me, start, site.trace, executionId, bundle);
      site.Leave(me, Attempt(executionId, bundle, sequence, completed, Ended));
      if outcome.Report? { CompletedLog(site.trace, site.recorder.records, executionId, bundle, sequence); }
    }

    /** When the others keep to other executions, nobody else has appended to this one. */
    lemma KeptOff(me: nat, start: seq<Action>, end: seq<Action>, executionId: string, bundle: Bundle)
      requires Went(me, start + [Start(me, executionId, bundle)], end)
      ensures world.KeepsOff(Run(start).attempts, executionId) ==>
        MigrationHistory.OnlyBy(end, executionId, me, |LogOf(Run(start).records, executionId)|)
    {
      hide Run, MigrationHistory.OnlyBy, MigrationHistory.Elsewhere, MigrationHistory.SameOrElsewhere, World.Has;
      if world.KeepsOff(Run(start).attempts, executionId) {
        var steps := end[|start|..];
        assert end == start + steps;
        forall x | x in steps ensures x.name == me || MigrationHistory.Elsewhere(Run(start).attempts, executionId, x) {
          var i :| 0 <= i < |steps| && steps[i] == x;
          assert end[|start| + i] == x;
          assert x.name == me || world.Has(x);
        }
        InvRun(start);
        assert |AuthorsOf(Run(start), executionId)| == |LogOf(Run(start).records, executionId)|;
        MigrationHistory.ElsewhereIsSilent(start, steps, executionId, me);
      }
    }

    /**
     * The log of a call that failed with nobody else about: FAILED with the code of what went wrong, which is raised
     * unless telling the evidence sink raises itself; or COMPLETED, if only its evidence could not be recorded.
     */
    predicate EndedBadly(log: Log, k: nat, raised: string, code: Option<string>)
    {
      && |log| == k + 1 && code.Some?
      && if log[k].state.Failed?
         then && log[k].failureCode == code
              && raised == if world.failedEvidence.Some? then world.failedEvidence.value else code.value
         else log[k].state.Completed? && raised == CONFLICT && world.completedEvidence.Some?
    }

    lemma PrefixCalls(done: seq<string>, calls: seq<string>, steps: seq<string>)
      requires done <= steps && calls <= steps[|done|..]
      ensures done + calls <= steps
    {
    }

    lemma ReportsMore(a: seq<Validation>, x: seq<Condition>, b: seq<Validation>, y: seq<Condition>)
      requires world.Reports(a, x) && world.Reports(b, y)
      ensures world.Reports(a + b, x + y)
    {
    }

    function MakeCutover(executionId: string, bundle: Bundle, activation: Activation,
                         validations: seq<Validation>): Cutover
    {
      Cutover(executionId, BundleDigest(bundle), bundle.sourceFingerprint, bundle.targetFingerprint,
              activation.sourceBoundary, activation.previousGeneration, activation.activeGeneration, validations)
    }

    /** The cutover evidence names what was inspected, activated and validated. */
    ghost predicate CutoverOf(cutover: Cutover, executionId: string, bundle: Bundle, validations: seq<Validation>)
    {
      && world.inspected.Gave? && world.activated(world.inspected.value.activeGeneration).Gave?
      && var activation := world.activated(world.inspected.value.activeGeneration).value;
      && cutover.executionId == executionId && cutover.bundleDigest.content == bundle
      && cutover.validationReport == validations
      && cutover.sourceFingerprint == world.inspected.value.logicalFingerprint
      && cutover.targetFingerprint == activation.targetFingerprint
      && cutover.sourceBoundary == activation.sourceBoundary
      && cutover.previousGeneration == activation.previousGeneration
      && cutover.activeGeneration == activation.activeGeneration
    }
  }

  lemma DoneIsWithin(steps: seq<string>, done: set<string>, k: nat)
    requires Done(steps, done, k)
    ensures k <= |steps|
  {
  }

  lemma SkipOffersNothing(a: Attempt)
    ensures Offer(a, Skip, 0).None?
  {
  }

  lemma StartedWith(id: string, bundle: Bundle, log: Log)
    ensures Started(id, bundle, log) ==
      Attempt(id, bundle, if log == [] then 0 else log[|log| - 1].sequence + 1, (set x | x in AppliedIds(log)),
              Preparing)
  {
  }

  /** A call that has just read the log may append, and knows which steps are acknowledged. */
  lemma FreshAttempt(actions: seq<Action>, id: string, bundle: Bundle)
    requires id != "" && bundle.WellFormed() && Startable(LogOf(Run(actions).records, id), bundle)
    ensures var log := LogOf(Run(actions).records, id);
      var a := Started(id, bundle, log);
      && a.sequence == |log| && AppliedIds(log) <= bundle.StepIds() && Done(bundle.StepIds(), a.done, |AppliedIds(log)|)
  {
    hide Run;
    var log := LogOf(Run(actions).records, id);
    InvRun(actions);
    NoLog(id);
    StartKeeps(id, bundle, log);
    if log != [] {
      assert log[0] in log;
      AppliedIsPrefix(bundle.StepIds(), log);
    }
  }

  /** A log that ends in COMPLETED has every step of its bundle. */
  lemma CompletedLog(actions: seq<Action>, records: Records, id: string, bundle: Bundle, k: nat)
    requires records == Run(actions).records && CompletedAt(LogOf(records, id), k, bundle)
    ensures AppliedIds(LogOf(records, id)) == bundle.StepIds()
  {
    hide Run;
    var log := LogOf(records, id);
    MigrationHistory.LogsAreLawful(actions, id);
    LateStatesNeedAllSteps(id, bundle, log, k);
    assert log[..k] == log[..|log| - 1];
  }

  predicate FailedAt(log: Log, k: nat, code: string)
  {
    |log| == k + 1 && log[k].state.Failed? && log[k].failureCode == Some(code)
  }

  predicate CompletedAt(log: Log, k: nat, bundle: Bundle)
  {
    |log| == k + 1 && log[k].state.Completed? && log[k].bundleDigest == BundleDigest(bundle)
  }
}
