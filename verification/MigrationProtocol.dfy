/** Any number of overlapping migration attempts over one append-only recorder, each failing or stopping anywhere. */
module MigrationProtocol {
  import opened Wrappers
  import opened Identifiers
  import opened MigrationModel

  datatype Phase = Preparing | Stepping(next: nat) | Checking | Switching | Closing | Failing | Ended

  /** What one running `execute` call holds: where it will append next and which steps it need not apply again. */
  datatype Attempt = Attempt(executionId: string, bundle: Bundle, sequence: nat, done: set<string>, phase: Phase)

  datatype Move = Plan | Skip | Apply(result: Applied) | Validate | Activate | Complete
                | Raise | RecordFailure(code: string) | Return | Crash

  datatype Action = Start(name: nat, executionId: string, bundle: Bundle) | Do(name: nat, move: Move, at: int)

  datatype Sys = Sys(records: Records, attempts: map<nat, Attempt>, authors: map<string, seq<nat>>)

  const EMPTY: Sys := Sys(map[], map[], map[])

  predicate Startable(log: Log, bundle: Bundle)
  {
    forall c :: c in log ==> c.bundleDigest == BundleDigest(bundle) && !c.state.Completed?
  }

  function Started(id: string, bundle: Bundle, log: Log): Attempt
  {
    Attempt(id, bundle, if log == [] then 0 else log[|log| - 1].sequence + 1, (set x | x in AppliedIds(log)), Preparing)
  }

  predicate Enabled(a: Attempt, move: Move)
  {
    match move
    case Plan => a.phase.Preparing?
    case Skip => a.phase.Stepping? && a.phase.next < |a.bundle.steps| && a.bundle.steps[a.phase.next].stepId in a.done
    case Apply(result) =>
      && a.phase.Stepping? && a.phase.next < |a.bundle.steps| && result.stepId == a.bundle.steps[a.phase.next].stepId
      && result.stepId !in a.done
    case Validate => a.phase.Stepping? && a.phase.next == |a.bundle.steps|
    case Activate => a.phase.Checking?
    case Complete => a.phase.Switching?
    case Raise => !a.phase.Failing? && !a.phase.Ended?
    case RecordFailure(_) => a.phase.Failing?
    case Return => a.phase.Closing?
    case Crash => !a.phase.Ended?
  }

  /** The checkpoint a move hands to the recorder, if it hands over one. */
  function Offer(a: Attempt, move: Move, at: int): (c: Option<Checkpoint>)
    ensures c.Some? ==>
      && c.value.sequence == a.sequence && c.value.executionId == a.executionId
      && c.value.bundleDigest == BundleDigest(a.bundle)
  {
    var entry := (state, step, code) =>
      Some(Checkpoint(a.executionId, BundleDigest(a.bundle), state, a.sequence, step, code, at));
    match move
    case Plan => entry(State.Planned, None, None)
    case Apply(result) => entry(State.Applying, Some(result), None)
    case Validate => entry(State.Validating, None, None)
    case Activate => entry(State.Activating, None, None)
    case Complete => entry(State.Completed, None, None)
    case RecordFailure(code) => entry(State.Failed, None, Some(code))
    case Skip => None
    case Raise => None
    case Return => None
    case Crash => None
  }

  /** The attempt after a move whose checkpoint, if any, was accepted or refused. A refusal raises. */
  function After(a: Attempt, move: Move, accepted: bool): Attempt
  {
    match move
    case RecordFailure(_) => a.(phase := Ended)
    case Return => a.(phase := Ended)
    case Crash => a.(phase := Ended)
    case Raise => a.(phase := Failing)
    case Skip => if a.phase.Stepping? then a.(phase := Stepping(a.phase.next + 1)) else a
    case Complete => a.(phase := if accepted then Closing else Failing)
    case _ => if !accepted then a.(phase := Failing) else a.(sequence := a.sequence + 1, phase := Onward(a.phase, move))
  }

  /** `sequence` moves on with every accepted checkpoint except COMPLETED and FAILED. */
  function Onward(phase: Phase, move: Move): Phase
  {
    match move
    case Plan => Stepping(0)
    case Apply(_) => if phase.Stepping? then Stepping(phase.next + 1) else phase
    case Validate => Checking
    case Activate => Switching
    case _ => phase
  }

  function AuthorsOf(s: Sys, id: string): seq<nat>
  {
    if id in s.authors then s.authors[id] else []
  }

  /** One atomic step. A step that is not enabled changes nothing. */
  ghost function Next(s: Sys, action: Action): Sys
  {
    match action
    case Start(name, id, bundle) =>
      if name in s.attempts || id == "" || !bundle.WellFormed() || !Startable(LogOf(s.records, id), bundle) then s
      else s.(attempts := s.attempts[name := Started(id, bundle, LogOf(s.records, id))])
    case Do(name, move, at) =>
      if name !in s.attempts || !Enabled(s.attempts[name], move) then s
      else Moved(s, name, move, at)
  }

  ghost function Moved(s: Sys, name: nat, move: Move, at: int): Sys
    requires name in s.attempts
  {
    var a := s.attempts[name];
    var id, offer := a.executionId, Offer(a, move, at);
    if offer.None? then s.(attempts := s.attempts[name := After(a, move, true)])
    else if !Accepts(LogOf(s.records, id), offer.value) then s.(attempts := s.attempts[name := After(a, move, false)])
    else Sys(s.records[id := LogOf(s.records, id) + [offer.value]], s.attempts[name := After(a, move, true)],
             s.authors[id := AuthorsOf(s, id) + [name]])
  }

  ghost function RunFrom(s: Sys, actions: seq<Action>): Sys
  {
    if actions == [] then s else Next(RunFrom(s, actions[..|actions| - 1]), actions[|actions| - 1])
  }

  ghost function Run(actions: seq<Action>): Sys
  {
    RunFrom(EMPTY, actions)
  }

  // ------------------------------------------------------------ invariant

  ghost predicate LogInv(id: string, log: Log)
  {
    log != [] ==> log[0].bundleDigest.content.WellFormed() && Lawful(id, log[0].bundleDigest.content, log)
  }

  /** An attempt may still append exactly when its sequence is the length of the log. */
  predicate Current(log: Log, a: Attempt)
  {
    a.sequence == |log|
  }

  predicate Done(steps: seq<string>, done: set<string>, k: nat)
  {
    k <= |steps| && done == set x | x in steps[..k]
  }

  ghost predicate Fits(a: Attempt, mode: Mode)
  {
    var steps := a.bundle.StepIds();
    match a.phase
    case Preparing => !mode.stage.Completed? && Done(steps, a.done, mode.applied)
    case Stepping(next) =>
      && mode.stage == Stage.Planned && next <= |steps| && mode.applied <= |steps|
      && exists k: nat :: Done(steps, a.done, k) && mode.applied == if next <= k then k else next
    case Checking => mode.stage == Stage.Validating
    case Switching => mode.stage == Stage.Activating
    case Failing => !mode.stage.Completed?
    case Closing => false
    case Ended => true
  }

  ghost predicate AttemptInv(log: Log, a: Attempt)
  {
    && a.bundle.WellFormed() && a.executionId != "" && a.sequence <= |log|
    && (Current(log, a) && !a.phase.Ended? ==>
          Lawful(a.executionId, a.bundle, log) && Fits(a, Reached(a.bundle.StepIds(), log).value))
  }

  ghost predicate Inv(s: Sys)
  {
    && (forall id :: id in s.records ==> id != "" && LogInv(id, s.records[id]))
    && (forall name :: name in s.attempts ==>
          AttemptInv(LogOf(s.records, s.attempts[name].executionId), s.attempts[name]))
    && (forall id :: |AuthorsOf(s, id)| == |LogOf(s.records, id)|)
  }

  lemma StartKeeps(id: string, bundle: Bundle, log: Log)
    requires id != "" && LogInv(id, log) && bundle.WellFormed() && Startable(log, bundle)
    ensures AttemptInv(log, Started(id, bundle, log))
  {
    var steps := bundle.StepIds();
    if log != [] {
      assert log[0] in log && log[|log| - 1] in log;
      if Reached(steps, log).value.stage.Completed? { LastEntry(steps, log); }
    }
    AppliedIsPrefix(steps, log);
  }

  lemma LawfulExtends(id: string, bundle: Bundle, log: Log, c: Checkpoint)
    requires Lawful(id, bundle, log) && bundle.WellFormed()
    requires c.executionId == id && c.bundleDigest == BundleDigest(bundle) && c.sequence == |log|
    requires Advance(bundle.StepIds(), Reached(bundle.StepIds(), log).value, c).Some?
    ensures Lawful(id, bundle, log + [c]) && LogInv(id, log + [c])
    ensures Reached(bundle.StepIds(), log + [c]) == Advance(bundle.StepIds(), Reached(bundle.StepIds(), log).value, c)
  {
    assert (log + [c])[..|log|] == log;
  }

  /** The recorder's check lets a checkpoint in exactly when nobody else has appended since the attempt read the log. */
  lemma AcceptedExactly(log: Log, a: Attempt, move: Move, at: int)
    requires LogInv(a.executionId, log) && AttemptInv(log, a) && Offer(a, move, at).Some?
    ensures Accepts(log, Offer(a, move, at).value) <==> Current(log, a)
  {
  }

  lemma StepNotDone(steps: seq<string>, done: set<string>, k: nat, next: nat)
    requires Distinct(steps) && Done(steps, done, k) && next < |steps|
    ensures steps[next] in done <==> next < k
  {
    if next < k { assert steps[..k][next] == steps[next]; }
  }

  /** An enabled checkpoint of a current attempt is one the log may take next. */
  lemma OfferAdvances(log: Log, a: Attempt, move: Move, at: int)
    requires AttemptInv(log, a) && Current(log, a) && Enabled(a, move) && Offer(a, move, at).Some?
    ensures Lawful(a.executionId, a.bundle, log)
    ensures var next := Advance(a.bundle.StepIds(), Reached(a.bundle.StepIds(), log).value, Offer(a, move, at).value);
      next.Some? && (!move.Complete? && !move.RecordFailure? ==> Fits(After(a, move, true), next.value))
  {
    hide Reached;
    var steps := a.bundle.StepIds();
    var mode := Reached(steps, log).value;
    if a.phase.Stepping? {
      var k: nat :| Done(steps, a.done, k) && mode.applied == if a.phase.next <= k then k else a.phase.next;
      if a.phase.next < |steps| { StepNotDone(steps, a.done, k, a.phase.next); }
    }
    if move.Plan? { assert Done(steps, a.done, mode.applied); }
  }

  lemma SkipFits(a: Attempt, mode: Mode)
    requires a.bundle.WellFormed() && Fits(a, mode) && Enabled(a, Skip)
    ensures Fits(After(a, Skip, true), mode)
  {
    var steps := a.bundle.StepIds();
    var k: nat :| Done(steps, a.done, k) && mode.applied == if a.phase.next <= k then k else a.phase.next;
    StepNotDone(steps, a.done, k, a.phase.next);
  }

  lemma QuietKeeps(log: Log, a: Attempt, move: Move, at: int)
    requires AttemptInv(log, a) && Enabled(a, move) && Offer(a, move, at).None?
    ensures AttemptInv(log, After(a, move, true))
  {
    hide Reached;
    if Current(log, a) && move.Skip? { SkipFits(a, Reached(a.bundle.StepIds(), log).value); }
  }

  lemma OfferKeeps(log: Log, a: Attempt, move: Move, at: int)
    requires LogInv(a.executionId, log) && AttemptInv(log, a) && Enabled(a, move) && Offer(a, move, at).Some?
    ensures var c := Offer(a, move, at).value;
      if Accepts(log, c)
      then LogInv(a.executionId, log + [c]) && AttemptInv(log + [c], After(a, move, true))
      else AttemptInv(log, After(a, move, false))
  {
    hide Reached, Lawful, Fits;
    var c := Offer(a, move, at).value;
    AcceptedExactly(log, a, move, at);
    if Accepts(log, c) {
      OfferAdvances(log, a, move, at);
      LawfulExtends(a.executionId, a.bundle, log, c);
    }
  }

  lemma MoveKeepsInv(s: Sys, name: nat, move: Move, at: int)
    requires Inv(s) && name in s.attempts && Enabled(s.attempts[name], move)
    ensures Inv(Moved(s, name, move, at))
  {
    hide LogInv, AttemptInv, After, Offer, Enabled;
    var a, n := s.attempts[name], Moved(s, name, move, at);
    var id := a.executionId;
    var log, offer := LogOf(s.records, id), Offer(a, move, at);
    NoLog(id);
    IdNotEmpty(log, a);
    if offer.None? { QuietKeeps(log, a, move, at); } else { OfferKeeps(log, a, move, at); }
    SameAttempt(a, move);
    forall x ensures |AuthorsOf(n, x)| == |LogOf(n.records, x)|
    {
      assert |AuthorsOf(s, x)| == |LogOf(s.records, x)|;
    }
    forall other | other in n.attempts
      ensures AttemptInv(LogOf(n.records, n.attempts[other].executionId), n.attempts[other])
    {
      if other != name && n.attempts[other].executionId == id && LogOf(n.records, id) != log {
        Overtaken(log, offer.value, n.attempts[other]);
      }
    }
  }

  lemma NoLog(id: string)
    ensures LogInv(id, [])
  {
  }

  lemma IdNotEmpty(log: Log, a: Attempt)
    requires AttemptInv(log, a)
    ensures a.executionId != ""
  {
  }

  lemma SameAttempt(a: Attempt, move: Move)
    ensures forall accepted :: After(a, move, accepted).executionId == a.executionId
  {
  }

  lemma Overtaken(log: Log, c: Checkpoint, a: Attempt)
    requires AttemptInv(log, a)
    ensures AttemptInv(log + [c], a)
  {
  }

  lemma InvStep(s: Sys, action: Action)
    requires Inv(s)
    ensures Inv(Next(s, action))
  {
    hide LogInv, AttemptInv, Startable, Started, Moved;
    match action
    case Start(name, id, bundle) =>
      NoLog(id);
      if Next(s, action) != s {
        StartKeeps(id, bundle, LogOf(s.records, id));
        StartedHere(id, bundle, LogOf(s.records, id));
      }
    case Do(name, move, at) =>
      if Next(s, action) != s { MoveKeepsInv(s, name, move, at); }
  }

  lemma StartedHere(id: string, bundle: Bundle, log: Log)
    ensures Started(id, bundle, log).executionId == id
  {
  }

  lemma {:induction false} InvRun(actions: seq<Action>)
    ensures Inv(Run(actions))
  {
    if actions != [] {
      InvRun(actions[..|actions| - 1]);
      InvStep(Run(actions[..|actions| - 1]), actions[|actions| - 1]);
    }
  }
}
