/** What every recorder log looks like, whatever attempts overlapped to produce it. */
module MigrationHistory {
  import opened Wrappers
  import opened MigrationModel
  import opened MigrationProtocol

  /**
   * Every reachable log is lawful: sequences 0, 1, 2, ..., one bundle, attempts that resume, nothing after COMPLETED.
   */
  lemma LogsAreLawful(actions: seq<Action>, id: string)
    ensures var log := LogOf(Run(actions).records, id);
      log != [] ==> Lawful(id, log[0].bundleDigest.content, log) && log[0].bundleDigest.content.WellFormed()
  {
    InvRun(actions);
  }

  lemma NextAppends(s: Sys, action: Action, id: string)
    ensures LogOf(s.records, id) <= LogOf(Next(s, action).records, id)
    ensures |LogOf(Next(s, action).records, id)| <= |LogOf(s.records, id)| + 1
  {
  }

  lemma {:induction false} LogGrows(s: Sys, more: seq<Action>, id: string)
    ensures LogOf(s.records, id) <= LogOf(RunFrom(s, more).records, id)
  {
    if more != [] {
      LogGrows(s, more[..|more| - 1], id);
      NextAppends(RunFrom(s, more[..|more| - 1]), more[|more| - 1], id);
    }
  }

  lemma {:induction false} RunContinues(actions: seq<Action>, more: seq<Action>)
    ensures Run(actions + more) == RunFrom(Run(actions), more)
    decreases |more|
  {
    if more == [] {
      assert actions + more == actions;
    } else {
      assert (actions + more)[..|actions + more| - 1] == actions + more[..|more| - 1];
      RunContinues(actions, more[..|more| - 1]);
    }
  }

  /** COMPLETED is final: no attempt, not even the one that recorded it, changes the log afterwards. */
  lemma CompletedIsTerminal(actions: seq<Action>, more: seq<Action>, id: string, k: nat)
    requires k < |LogOf(Run(actions).records, id)| && LogOf(Run(actions).records, id)[k].state.Completed?
    ensures LogOf(Run(actions + more).records, id) == LogOf(Run(actions).records, id)
  {
    var log, later := LogOf(Run(actions).records, id), LogOf(Run(actions + more).records, id);
    RunContinues(actions, more);
    LogGrows(Run(actions), more, id);
    LogsAreLawful(actions, id);
    LogsAreLawful(actions + more, id);
    assert later[k] == log[k] && later[0] == log[0];
    CompletedIsLast(id, log[0].bundleDigest.content, log, k);
    CompletedIsLast(id, log[0].bundleDigest.content, later, k);
  }

  // ------------------------------------------------------------- fencing

  /** In every run the recorder's check lets a call append exactly while nobody else has. */
  lemma AcceptedInRun(actions: seq<Action>, name: nat, move: Move, at: int)
    requires name in Run(actions).attempts && Offer(Run(actions).attempts[name], move, at).Some?
    ensures var a := Run(actions).attempts[name];
      var log := LogOf(Run(actions).records, a.executionId);
      Accepts(log, Offer(a, move, at).value) <==> a.sequence == |log|
  {
    var a := Run(actions).attempts[name];
    InvRun(actions);
    NoLog(a.executionId);
    AcceptedExactly(LogOf(Run(actions).records, a.executionId), a, move, at);
  }

  ghost predicate IsOvertaken(s: Sys, name: nat)
  {
    name in s.attempts && s.attempts[name].sequence < |LogOf(s.records, s.attempts[name].executionId)|
  }

  /** What a move changes: at most its own attempt, and, if that is current, one entry of its own execution's log. */
  lemma MovedAuthors(s: Sys, name: nat, move: Move, at: int)
    requires Inv(s) && name in s.attempts
    ensures var a, n := s.attempts[name], Moved(s, name, move, at);
      var id := a.executionId;
      && name in n.attempts && n.attempts == s.attempts[name := n.attempts[name]] && n.attempts[name].executionId == id
      && (forall x :: x != id ==> LogOf(n.records, x) == LogOf(s.records, x) && AuthorsOf(n, x) == AuthorsOf(s, x))
      && (|| (LogOf(n.records, id) == LogOf(s.records, id) && AuthorsOf(n, id) == AuthorsOf(s, id)
              && n.attempts[name].sequence == a.sequence)
          || (&& a.sequence == |LogOf(s.records, id)| == |LogOf(n.records, id)| - 1
              && AuthorsOf(n, id) == AuthorsOf(s, id) + [name]))
  {
    hide LogInv, AttemptInv;
    var a := s.attempts[name];
    var log := LogOf(s.records, a.executionId);
    NoLog(a.executionId);
    if Offer(a, move, at).Some? { AcceptedExactly(log, a, move, at); }
  }

  ghost predicate NotBy(before: seq<nat>, after: seq<nat>, name: nat)
  {
    after == before || exists x :: x != name && after == before + [x]
  }

  lemma OvertakenStep(s: Sys, action: Action, name: nat)
    requires Inv(s) && IsOvertaken(s, name)
    ensures IsOvertaken(Next(s, action), name)
    ensures forall id :: NotBy(AuthorsOf(s, id), AuthorsOf(Next(s, action), id), name)
  {
    hide Inv, Moved;
    if action.Do? && action.name in s.attempts { MovedAuthors(s, action.name, action.move, action.at); }
  }

  /** Once another attempt has appended, an attempt never appends again, whatever it and everybody else do. */
  lemma {:induction false} OvertakenNeverAppends(s: Sys, more: seq<Action>, name: nat, id: string)
    requires Inv(s) && IsOvertaken(s, name)
    ensures Inv(RunFrom(s, more)) && IsOvertaken(RunFrom(s, more), name)
    ensures AuthorsOf(s, id) <= AuthorsOf(RunFrom(s, more), id)
    ensures name !in AuthorsOf(RunFrom(s, more), id)[|AuthorsOf(s, id)|..]
  {
    if more != [] {
      var init, last := more[..|more| - 1], more[|more| - 1];
      OvertakenNeverAppends(s, init, name, id);
      OvertakenStep(RunFrom(s, init), last, name);
      InvStep(RunFrom(s, init), last);
    }
  }

  // ------------------------------------------------- calls beside each other

  /** Only this call has appended to the execution's log since it held `k` entries. */
  ghost predicate OnlyBy(actions: seq<Action>, id: string, me: nat, k: nat)
  {
    forall i :: k <= i < |AuthorsOf(Run(actions), id)| ==> AuthorsOf(Run(actions), id)[i] == me
  }

  lemma NextAuthors(s: Sys, action: Action, id: string)
    ensures AuthorsOf(Next(s, action), id) in {AuthorsOf(s, id), AuthorsOf(s, id) + [action.name]}
  {
  }

  lemma {:induction false} AuthorsGrow(s: Sys, more: seq<Action>, id: string)
    ensures AuthorsOf(s, id) <= AuthorsOf(RunFrom(s, more), id)
    ensures forall i :: |AuthorsOf(s, id)| <= i < |AuthorsOf(RunFrom(s, more), id)| ==>
      exists x :: x in more && AuthorsOf(RunFrom(s, more), id)[i] == x.name
  {
    hide Next;
    if more != [] {
      var init, last := more[..|more| - 1], more[|more| - 1];
      assert more == init + [last];
      AuthorsGrow(s, init, id);
      NextAuthors(RunFrom(s, init), last, id);
      assert forall x :: x in init ==> x in more;
    }
  }

  lemma StillOnlyBy(actions: seq<Action>, more: seq<Action>, id: string, me: nat, k: nat)
    requires OnlyBy(actions + more, id, me, k)
    ensures OnlyBy(actions, id, me, k)
  {
    hide Run, RunFrom;
    RunContinues(actions, more);
    AuthorsGrow(Run(actions), more, id);
  }

  /** Where the log has not grown nobody has appended, and an entry of one's own is one's own. */
  lemma OnlyByOwn(actions: seq<Action>, more: seq<Action>, own: Action, id: string, me: nat, k: nat)
    requires OnlyBy(actions, id, me, k) && own.name == me
    requires LogOf(Run(actions + more).records, id) == LogOf(Run(actions).records, id)
    ensures OnlyBy(actions + more, id, me, k) && OnlyBy(actions + more + [own], id, me, k)
  {
    hide Run, RunFrom, Next;
    RunContinues(actions, more);
    AuthorsGrow(Run(actions), more, id);
    InvRun(actions);
    InvRun(actions + more);
    assert |AuthorsOf(Run(actions), id)| == |LogOf(Run(actions).records, id)|;
    assert |AuthorsOf(Run(actions + more), id)| == |LogOf(Run(actions + more).records, id)|;
    assert AuthorsOf(Run(actions + more), id) == AuthorsOf(Run(actions), id);
    RunThen(actions + more, own);
    NextAuthors(Run(actions + more), own, id);
  }

  /** One's own step leaves it so, and before the first step of a call it is so. */
  lemma OwnStepIsOwn(actions: seq<Action>, own: Action, id: string, me: nat)
    requires own.name == me
    ensures forall k: nat :: OnlyBy(actions, id, me, k) ==> OnlyBy(actions + [own], id, me, k)
    ensures OnlyBy(actions + [own], id, me, |LogOf(Run(actions).records, id)|)
  {
    hide Run, RunFrom, Next;
    RunThen(actions, own);
    NextAuthors(Run(actions), own, id);
    InvRun(actions);
    assert |AuthorsOf(Run(actions), id)| == |LogOf(Run(actions).records, id)|;
  }

  lemma SomebodyElse(before: seq<nat>, after: seq<nat>, me: nat, k: nat)
    requires k <= |before| < |after| && forall i :: |before| <= i < |after| ==> after[i] != me
    ensures exists i :: k <= i < |after| && after[i] != me
  {
    assert after[|before|] != me;
  }

  /** While only one call appends, the steps of the others leave the log as it was. */
  lemma OthersAreSilent(actions: seq<Action>, more: seq<Action>, id: string, me: nat, k: nat)
    requires OnlyBy(actions + more, id, me, k) && k <= |LogOf(Run(actions).records, id)|
    requires forall x :: x in more ==> x.name != me
    ensures LogOf(Run(actions + more).records, id) == LogOf(Run(actions).records, id)
  {
    hide Run, RunFrom;
    RunContinues(actions, more);
    AuthorsGrow(Run(actions), more, id);
    LogGrows(Run(actions), more, id);
    InvRun(actions);
    InvRun(actions + more);
    var before, after := AuthorsOf(Run(actions), id), AuthorsOf(Run(actions + more), id);
    assert |before| == |LogOf(Run(actions).records, id)| && |after| == |LogOf(Run(actions + more).records, id)|;
    if |before| < |after| { SomebodyElse(before, after, me, k); }
  }

  /** A step that neither starts a call of this execution nor moves one that there is. */
  ghost predicate Elsewhere(attempts: map<nat, Attempt>, id: string, x: Action)
  {
    if x.Start? then x.executionId != id else x.name in attempts ==> attempts[x.name].executionId != id
  }

  ghost predicate SameOrElsewhere(before: map<nat, Attempt>, after: map<nat, Attempt>, id: string, me: nat)
  {
    forall name :: name in after && name != me ==>
      if name in before then after[name].executionId == before[name].executionId else after[name].executionId != id
  }

  lemma ElsewhereStep(attempts: map<nat, Attempt>, s: Sys, x: Action, id: string, me: nat)
    requires SameOrElsewhere(attempts, s.attempts, id, me) && (x.name == me || Elsewhere(attempts, id, x))
    requires attempts.Keys <= s.attempts.Keys
    ensures SameOrElsewhere(attempts, Next(s, x).attempts, id, me) && attempts.Keys <= Next(s, x).attempts.Keys
    ensures x.name != me ==> AuthorsOf(Next(s, x), id) == AuthorsOf(s, id)
  {
    hide Enabled, Accepts, Offer, Startable, Started;
    if x.Do? && x.name in s.attempts { SameAttempt(s.attempts[x.name], x.move); }
    if x.Start? { StartedHere(x.executionId, x.bundle, LogOf(s.records, x.executionId)); }
  }

  /** When the others keep to other executions, only this call appends. */
  lemma {:induction false} ElsewhereIsSilent(actions: seq<Action>, more: seq<Action>, id: string, me: nat)
    requires forall x :: x in more ==> x.name == me || Elsewhere(Run(actions).attempts, id, x)
    ensures OnlyBy(actions + more, id, me, |AuthorsOf(Run(actions), id)|)
    ensures SameOrElsewhere(Run(actions).attempts, Run(actions + more).attempts, id, me)
    ensures Run(actions).attempts.Keys <= Run(actions + more).attempts.Keys
    decreases |more|
  {
    hide Next;
    if more == [] {
      assert actions + more == actions;
    } else {
      var init, last := more[..|more| - 1], more[|more| - 1];
      assert more == init + [last];
      assert actions + more == (actions + init) + [last];
      ElsewhereIsSilent(actions, init, id, me);
      RunThen(actions + init, last);
      ElsewhereStep(Run(actions).attempts, Run(actions + init), last, id, me);
      NextAuthors(Run(actions + init), last, id);
      AuthorsGrow(Run(actions), init, id);
      RunContinues(actions, init);
    }
  }

  /** The entries of one attempt stand next to each other. */
  ghost predicate Contiguous(authors: seq<nat>)
  {
    forall i, j, k :: 0 <= i < j < k < |authors| && authors[i] == authors[k] ==> authors[j] == authors[i]
  }

  ghost predicate HoldsSuffix(authors: seq<nat>, name: nat)
  {
    forall i, j :: 0 <= i < j < |authors| && authors[i] == name ==> authors[j] == name
  }

  ghost predicate ContiguousInv(s: Sys)
  {
    && (forall id :: Contiguous(AuthorsOf(s, id)))
    && (forall id, x :: x in AuthorsOf(s, id) ==> x in s.attempts)
    && (forall name :: name in s.attempts ==> SuffixInv(s, name))
  }

  ghost predicate SuffixInv(s: Sys, name: nat)
    requires name in s.attempts
  {
    var a := s.attempts[name];
    Current(LogOf(s.records, a.executionId), a) ==> HoldsSuffix(AuthorsOf(s, a.executionId), name)
  }

  lemma ContiguousExtends(authors: seq<nat>, name: nat)
    requires Contiguous(authors) && HoldsSuffix(authors, name)
    ensures Contiguous(authors + [name]) && HoldsSuffix(authors + [name], name)
  {
  }

  lemma MovedContiguous(s: Sys, name: nat, move: Move, at: int)
    requires Inv(s) && ContiguousInv(s) && name in s.attempts
    ensures ContiguousInv(Moved(s, name, move, at))
  {
    hide Contiguous, HoldsSuffix, LogInv, Moved;
    var a, n := s.attempts[name], Moved(s, name, move, at);
    var id := a.executionId;
    MovedAuthors(s, name, move, at);
    assert SuffixInv(s, name);
    assert Contiguous(AuthorsOf(s, id));
    if AuthorsOf(n, id) != AuthorsOf(s, id) { ContiguousExtends(AuthorsOf(s, id), name); }
    forall x ensures Contiguous(AuthorsOf(n, x)) {
      assert Contiguous(AuthorsOf(s, x));
    }
    forall other | other in n.attempts ensures SuffixInv(n, other) {
      if other != name {
        assert SuffixInv(s, other);
        NotAhead(s, other);
      }
    }
  }

  lemma NotAhead(s: Sys, name: nat)
    requires Inv(s) && name in s.attempts
    ensures s.attempts[name].sequence <= |LogOf(s.records, s.attempts[name].executionId)|
  {
  }

  lemma Absent(authors: seq<nat>, name: nat)
    requires name !in authors
    ensures HoldsSuffix(authors, name)
  {
  }

  lemma ContiguousStep(s: Sys, action: Action)
    requires Inv(s) && ContiguousInv(s)
    ensures ContiguousInv(Next(s, action))
  {
    hide Contiguous, HoldsSuffix, Moved, Inv, Startable;
    var n := Next(s, action);
    match action
    case Start(name, id, bundle) =>
      if n != s {
        StartedHere(id, bundle, LogOf(s.records, id));
        assert name !in AuthorsOf(s, id);
        Absent(AuthorsOf(s, id), name);
        forall other | other in n.attempts ensures SuffixInv(n, other) {
          if other != name { assert SuffixInv(s, other); }
        }
        forall x ensures AuthorsOf(n, x) == AuthorsOf(s, x) {
        }
      }
    case Do(name, move, at) =>
      if n != s { MovedContiguous(s, name, move, at); }
  }

  lemma {:induction false} AttemptsAreContiguous(actions: seq<Action>)
    ensures ContiguousInv(Run(actions))
  {
    if actions != [] {
      AttemptsAreContiguous(actions[..|actions| - 1]);
      InvRun(actions[..|actions| - 1]);
      ContiguousStep(Run(actions[..|actions| - 1]), actions[|actions| - 1]);
    }
  }

  // -------------------------------------------------------- completeness

  lemma RunThen(actions: seq<Action>, action: Action)
    ensures Run(actions + [action]) == Next(Run(actions), action)
  {
    assert (actions + [action])[..|actions|] == actions;
  }

  /** A log that has not completed can be taken up by a new attempt. */
  lemma OpenLogStarts(id: string, bundle: Bundle, log: Log)
    requires Lawful(id, bundle, log) && !Reached(bundle.StepIds(), log).value.stage.Completed?
    ensures Startable(log, bundle)
  {
    forall k | 0 <= k < |log|
      ensures log[k].bundleDigest == BundleDigest(bundle) && !log[k].state.Completed?
    {
      if log[k].state.Completed? { CompletedIsLast(id, bundle, log, k); }
    }
  }

  ghost predicate Drives(s: Sys, name: nat, id: string, bundle: Bundle, phase: Phase)
  {
    && name in s.attempts && s.attempts[name].executionId == id && s.attempts[name].bundle == bundle
    && s.attempts[name].sequence == |LogOf(s.records, id)| && s.attempts[name].phase == phase
  }

  function PhaseFor(mode: Mode): Phase
  {
    match mode.stage
    case Planned => Stepping(mode.applied)
    case Validating => Checking
    case Activating => Switching
    case Idle => Ended
    case Completed => Ended
  }

  ghost predicate NamesUpTo(s: Sys, name: nat)
  {
    forall x :: x in s.attempts ==> x <= name
  }

  /** A current attempt's enabled checkpoint lands. */
  lemma Lands(actions: seq<Action>, name: nat, move: Move, at: int, c: Checkpoint)
    requires var s := Run(actions);
      && name in s.attempts && Enabled(s.attempts[name], move) && Offer(s.attempts[name], move, at) == Some(c)
      && s.attempts[name].sequence == |LogOf(s.records, s.attempts[name].executionId)|
    ensures var s, n := Run(actions), Run(actions + [Do(name, move, at)]);
      var id := s.attempts[name].executionId;
      && LogOf(n.records, id) == LogOf(s.records, id) + [c]
      && n.attempts == s.attempts[name := After(s.attempts[name], move, true)]
  {
    InvRun(actions);
    RunThen(actions, Do(name, move, at));
    var s := Run(actions);
    var a := s.attempts[name];
    NoLog(a.executionId);
    AcceptedExactly(LogOf(s.records, a.executionId), a, move, at);
  }

  lemma Begins(actions: seq<Action>, name: nat, id: string, bundle: Bundle)
    requires id != "" && bundle.WellFormed() && Lawful(id, bundle, LogOf(Run(actions).records, id))
    requires !Reached(bundle.StepIds(), LogOf(Run(actions).records, id)).value.stage.Completed?
    requires NamesUpTo(Run(actions), name)
    ensures var s, n := Run(actions), Run(actions + [Start(name + 1, id, bundle)]);
      && n.records == s.records && NamesUpTo(n, name + 1) && Drives(n, name + 1, id, bundle, Preparing)
  {
    RunThen(actions, Start(name + 1, id, bundle));
    OpenLogStarts(id, bundle, LogOf(Run(actions).records, id));
    assert name + 1 !in Run(actions).attempts;
  }

  /** Where the step loop of a current attempt stands, once it has passed over what was acknowledged. */
  lemma NextStepIsOpen(s: Sys, name: nat, id: string, bundle: Bundle, next: nat)
    requires Inv(s) && Drives(s, name, id, bundle, Stepping(next))
    requires Reached(bundle.StepIds(), LogOf(s.records, id)).Some?
    requires next < |bundle.steps|
    ensures bundle.steps[next].stepId in s.attempts[name].done
      <==> next < Reached(bundle.StepIds(), LogOf(s.records, id)).value.applied
  {
    hide Reached, LogInv;
    var a, steps := s.attempts[name], bundle.StepIds();
    var applied := Reached(steps, LogOf(s.records, id)).value.applied;
    assert AttemptInv(LogOf(s.records, id), a);
    var k: nat :| Done(steps, a.done, k) && applied == if next <= k then k else next;
    StepNotDone(steps, a.done, k, next);
  }

  lemma SkipOne(s: Sys, name: nat, id: string, bundle: Bundle, next: nat)
    requires Drives(s, name, id, bundle, Stepping(next)) && NamesUpTo(s, name)
    requires next < |bundle.steps| && bundle.steps[next].stepId in s.attempts[name].done
    ensures var n := Next(s, Do(name, Skip, 0));
      && LogOf(n.records, id) == LogOf(s.records, id) && Drives(n, name, id, bundle, Stepping(next + 1))
      && NamesUpTo(n, name)
  {
  }

  /** The loop over the compiled steps passes over those a previous attempt acknowledged. */
  lemma {:induction false} SkipsDone(actions: seq<Action>, name: nat, id: string, bundle: Bundle, next: nat)
    returns (more: seq<Action>)
    requires Drives(Run(actions), name, id, bundle, Stepping(next)) && NamesUpTo(Run(actions), name)
    requires Reached(bundle.StepIds(), LogOf(Run(actions).records, id)).Some?
    requires next <= Reached(bundle.StepIds(), LogOf(Run(actions).records, id)).value.applied
    ensures var s, n := Run(actions), Run(actions + more);
      && LogOf(n.records, id) == LogOf(s.records, id) && NamesUpTo(n, name)
      && Drives(n, name, id, bundle, Stepping(Reached(bundle.StepIds(), LogOf(s.records, id)).value.applied))
    decreases Reached(bundle.StepIds(), LogOf(Run(actions).records, id)).value.applied - next
  {
    hide Reached, Run, Inv, Enabled, After;
    var s, steps := Run(actions), bundle.StepIds();
    var applied := Reached(steps, LogOf(s.records, id)).value.applied;
    more := [];
    if next < applied {
      InvRun(actions);
      AppliedIsPrefix(steps, LogOf(s.records, id));
      NextStepIsOpen(s, name, id, bundle, next);
      SkipOne(s, name, id, bundle, next);
      RunThen(actions, Do(name, Skip, 0));
      var rest := SkipsDone(actions + [Do(name, Skip, 0)], name, id, bundle, next + 1);
      more := [Do(name, Skip, 0)] + rest;
      assert actions + more == actions + [Do(name, Skip, 0)] + rest;
    } else {
      assert actions + more == actions;
    }
  }

  /** The schedule so far produces this log, and the attempt `name` is the one that may go on with it. */
  ghost predicate Produces(actions: seq<Action>, name: nat, id: string, bundle: Bundle, log: Log)
  {
    && Lawful(id, bundle, log) && LogOf(Run(actions).records, id) == log && NamesUpTo(Run(actions), name)
    && var phase := PhaseFor(Reached(bundle.StepIds(), log).value);
       phase.Ended? || Drives(Run(actions), name, id, bundle, phase)
  }

  ghost predicate MayFollow(id: string, bundle: Bundle, log: Log, c: Checkpoint)
  {
    Lawful(id, bundle, log) && Lawful(id, bundle, log + [c])
    && Advance(bundle.StepIds(), Reached(bundle.StepIds(), log).value, c).Some?
    && c.executionId == id && c.bundleDigest == BundleDigest(bundle) && c.sequence == |log|
    && Reached(bundle.StepIds(), log + [c]) == Advance(bundle.StepIds(), Reached(bundle.StepIds(), log).value, c)
  }

  lemma PlanLands(actions: seq<Action>, name: nat, id: string, bundle: Bundle, c: Checkpoint)
    requires Drives(Run(actions), name, id, bundle, Preparing) && NamesUpTo(Run(actions), name)
    requires var log := LogOf(Run(actions).records, id);
      c == Checkpoint(id, BundleDigest(bundle), State.Planned, |log|, None, None, c.recordedAt)
    ensures var n := Run(actions + [Do(name, Plan, c.recordedAt)]);
      && LogOf(n.records, id) == LogOf(Run(actions).records, id) + [c]
      && Drives(n, name, id, bundle, Stepping(0)) && NamesUpTo(n, name)
  {
    hide Run;
    Lands(actions, name, Plan, c.recordedAt, c);
  }

  lemma AfterPlan(id: string, bundle: Bundle, log: Log, c: Checkpoint)
    requires MayFollow(id, bundle, log, c) && (c.state.Planned? || c.state.Failed?)
    ensures !Reached(bundle.StepIds(), log).value.stage.Completed?
    ensures c.step.None? && Reached(bundle.StepIds(), log + [c]).Some?
    ensures c.state.Planned? ==>
      c == Checkpoint(id, BundleDigest(bundle), State.Planned, |log|, None, None, c.recordedAt)
      && var mode := Reached(bundle.StepIds(), log + [c]).value;
        PhaseFor(mode) == Stepping(mode.applied)
    ensures c.state.Failed? ==>
      && c.failureCode.Some?
      && c == Checkpoint(id, BundleDigest(bundle), State.Failed, |log|, None, c.failureCode, c.recordedAt)
      && PhaseFor(Reached(bundle.StepIds(), log + [c]).value) == Ended
  {
    hide Reached;
  }

  lemma FailureLands(actions: seq<Action>, name: nat, id: string, bundle: Bundle, c: Checkpoint)
    requires Drives(Run(actions), name, id, bundle, Preparing) && NamesUpTo(Run(actions), name) && c.failureCode.Some?
    requires var log := LogOf(Run(actions).records, id);
      c == Checkpoint(id, BundleDigest(bundle), State.Failed, |log|, None, c.failureCode, c.recordedAt)
    ensures var n := Run(actions + [Do(name, Raise, 0)] + [Do(name, RecordFailure(c.failureCode.value), c.recordedAt)]);
      LogOf(n.records, id) == LogOf(Run(actions).records, id) + [c] && NamesUpTo(n, name)
  {
    hide Run;
    RunThen(actions, Do(name, Raise, 0));
    Lands(actions + [Do(name, Raise, 0)], name, RecordFailure(c.failureCode.value), c.recordedAt, c);
  }

  /** PLANNED: a new attempt reads the log, appends, and passes over the steps already acknowledged. */
  lemma ProducesPlanned(actions: seq<Action>, name: nat, id: string, bundle: Bundle, log: Log, c: Checkpoint)
    returns (more: seq<Action>)
    requires id != "" && bundle.WellFormed() && Produces(actions, name, id, bundle, log)
    requires MayFollow(id, bundle, log, c) && c.state.Planned?
    ensures Produces(more, name + 1, id, bundle, log + [c])
  {
    hide Reached, Lawful, Run, Drives, PhaseFor;
    var start, plan := Start(name + 1, id, bundle), Do(name + 1, Plan, c.recordedAt);
    Begins(actions, name, id, bundle);
    PlanLands(actions + [start], name + 1, id, bundle, c);
    AfterPlan(id, bundle, log, c);
    var planned := actions + [start] + [plan];
    var skips := SkipsDone(planned, name + 1, id, bundle, 0);
    more := planned + skips;
  }

  /** FAILED: a new attempt raises before it appends anything else. */
  lemma ProducesFailed(actions: seq<Action>, name: nat, id: string, bundle: Bundle, log: Log, c: Checkpoint)
    returns (more: seq<Action>)
    requires id != "" && bundle.WellFormed() && Produces(actions, name, id, bundle, log)
    requires MayFollow(id, bundle, log, c) && c.state.Failed?
    ensures Produces(more, name + 1, id, bundle, log + [c])
  {
    hide Reached, Lawful, Run, Drives, PhaseFor;
    var start, raised := Start(name + 1, id, bundle), Do(name + 1, Raise, 0);
    Begins(actions, name, id, bundle);
    AfterPlan(id, bundle, log, c);
    FailureLands(actions + [start], name + 1, id, bundle, c);
    more := actions + [start] + [raised] + [Do(name + 1, RecordFailure(c.failureCode.value), c.recordedAt)];
  }

  function MoveFor(c: Checkpoint): Move
  {
    match c.state
    case Applying => if c.step.Some? then Apply(c.step.value) else Validate
    case Validating => Validate
    case Activating => Activate
    case _ => Complete
  }

  lemma MoveForEnabled(s: Sys, name: nat, id: string, bundle: Bundle, log: Log, c: Checkpoint)
    requires Inv(s) && log == LogOf(s.records, id) && MayFollow(id, bundle, log, c) && !c.state.Planned?
    requires !c.state.Failed?
    requires Drives(s, name, id, bundle, PhaseFor(Reached(bundle.StepIds(), log).value))
    ensures Enabled(s.attempts[name], MoveFor(c)) && Offer(s.attempts[name], MoveFor(c), c.recordedAt) == Some(c)
    ensures var phase := PhaseFor(Reached(bundle.StepIds(), log + [c]).value);
      var next := s.attempts[name].(sequence := |log| + 1, phase := phase);
      c.state.Completed? || After(s.attempts[name], MoveFor(c), true) == next
  {
    hide Reached, Inv;
    if c.state.Applying? {
      NextStepIsOpen(s, name, id, bundle, Reached(bundle.StepIds(), log).value.applied);
    }
  }

  lemma ProducesNext(actions: seq<Action>, name: nat, id: string, bundle: Bundle, log: Log, c: Checkpoint)
    requires Produces(actions, name, id, bundle, log)
    requires MayFollow(id, bundle, log, c) && !c.state.Planned? && !c.state.Failed?
    ensures Produces(actions + [Do(name, MoveFor(c), c.recordedAt)], name, id, bundle, log + [c])
  {
    hide Reached, Lawful, Enabled, Offer, After, MoveFor;
    InvRun(actions);
    MoveForEnabled(Run(actions), name, id, bundle, log, c);
    Lands(actions, name, MoveFor(c), c.recordedAt, c);
  }

  lemma Follows(id: string, bundle: Bundle, log: Log)
    requires Lawful(id, bundle, log) && log != []
    ensures MayFollow(id, bundle, log[..|log| - 1], log[|log| - 1])
  {
    assert log == log[..|log| - 1] + [log[|log| - 1]];
  }

  /** Every lawful log comes about: some overlapping of attempts produces exactly it. */
  lemma {:induction false} EveryLawfulLog(id: string, bundle: Bundle, log: Log)
    returns (actions: seq<Action>, name: nat)
    requires id != "" && bundle.WellFormed() && Lawful(id, bundle, log)
    ensures Produces(actions, name, id, bundle, log)
    decreases |log|
  {
    if log == [] {
      actions, name := [], 0;
    } else {
      var init, c := log[..|log| - 1], log[|log| - 1];
      Follows(id, bundle, log);
      assert log == init + [c];
      actions, name := EveryLawfulLog(id, bundle, init);
      if c.state.Planned? {
        actions := ProducesPlanned(actions, name, id, bundle, init, c);
        name := name + 1;
      } else if c.state.Failed? {
        actions := ProducesFailed(actions, name, id, bundle, init, c);
        name := name + 1;
      } else {
        ProducesNext(actions, name, id, bundle, init, c);
        actions := actions + [Do(name, MoveFor(c), c.recordedAt)];
      }
    }
  }

  /** The reachable logs of a bundle are exactly the lawful ones. */
  lemma ReachableExactly(id: string, bundle: Bundle, log: Log)
    requires id != "" && bundle.WellFormed() && (log != [] ==> log[0].bundleDigest == BundleDigest(bundle))
    ensures (exists actions :: LogOf(Run(actions).records, id) == log) <==> Lawful(id, bundle, log)
  {
    if actions :| LogOf(Run(actions).records, id) == log {
      LogsAreLawful(actions, id);
    }
    if Lawful(id, bundle, log) {
      var actions, name := EveryLawfulLog(id, bundle, log);
    }
  }
}
