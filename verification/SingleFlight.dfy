/** Single flight: one active leader per key, whoever else reads and whatever the loaders do. */
module SingleFlight {
  datatype Role = Leader(key: string, event: nat) | Follower(key: string, event: nat) | Gone

  /** The flights dictionary, the events that have been set, and the readers so far. */
  datatype Table = Table(flights: map<string, nat>, signalled: set<nat>, nextEvent: nat, readers: map<nat, Role>,
                         broken: bool)

  const QUIET: Table := Table(map[], {}, 0, map[], false)

  /** In a flight; a reader that has left one may enter another. */
  predicate Active(t: Table, reader: nat)
  {
    reader in t.readers && !t.readers[reader].Gone?
  }

  /** A reader enters with a key under the lock, and leaves: a leader always does, also when its loader raises. */
  datatype Step = Enter(reader: nat, key: string) | Leave(reader: nat)

  function RoleOnEntry(t: Table, key: string): Role
  {
    if key in t.flights then Follower(key, t.flights[key]) else Leader(key, t.nextEvent)
  }

  /** `broken` records a `pop` of a key that is not there. */
  function Next(t: Table, step: Step): Table
  {
    match step
    case Enter(reader, key) =>
      if Active(t, reader) then t
      else
        var role := RoleOnEntry(t, key);
        if role.Leader?
        then t.(flights := t.flights[key := role.event], nextEvent := t.nextEvent + 1,
                readers := t.readers[reader := role])
        else t.(readers := t.readers[reader := role])
    case Leave(reader) =>
      if !Active(t, reader) then t
      else if t.readers[reader].Follower? then t.(readers := t.readers[reader := Gone])
      else
        var key := t.readers[reader].key;
        if key !in t.flights then t.(broken := true)
        else t.(flights := t.flights - {key}, signalled := t.signalled + {t.flights[key]},
                readers := t.readers[reader := Gone])
  }

  function RunFrom(t: Table, steps: seq<Step>): Table
  {
    if steps == [] then t else Next(RunFrom(t, steps[..|steps| - 1]), steps[|steps| - 1])
  }

  function Run(steps: seq<Step>): Table
  {
    RunFrom(QUIET, steps)
  }

  /**
   * A flight is in the dictionary exactly while its one leader is active, and that leader's event is still to be set.
   */
  ghost predicate RoleInv(t: Table, role: Role)
  {
    match role
    case Leader(key, event) => key in t.flights && t.flights[key] == event && event !in t.signalled
    case Follower(key, event) => event in t.signalled || (key in t.flights && t.flights[key] == event)
    case Gone => true
  }

  ghost predicate Inv(t: Table)
  {
    && !t.broken
    && (forall r :: r in t.readers ==> RoleInv(t, t.readers[r]))
    && (forall key :: key in t.flights ==> t.flights[key] < t.nextEvent && Led(t, key))
    && (forall k, l :: k in t.flights && l in t.flights && k != l ==> t.flights[k] != t.flights[l])
    && (forall e :: e in t.signalled ==> e < t.nextEvent)
    && (forall r, q :: r in t.readers && q in t.readers && r != q && t.readers[r].Leader? && t.readers[q].Leader? ==>
          t.readers[r].key != t.readers[q].key)
  }

  ghost predicate Led(t: Table, key: string)
    requires key in t.flights
  {
    exists r :: r in t.readers && t.readers[r] == Leader(key, t.flights[key])
  }

  lemma EnterKeeps(t: Table, reader: nat, key: string)
    requires Inv(t)
    ensures Inv(Next(t, Enter(reader, key)))
  {
    var n := Next(t, Enter(reader, key));
    if n != t {
      forall k | k in n.flights ensures n.flights[k] < n.nextEvent && Led(n, k) {
        if k in t.flights {
          assert Led(t, k);
          var r :| r in t.readers && t.readers[r] == Leader(k, t.flights[k]);
          assert n.readers[r] == t.readers[r];
        } else {
          assert n.readers[reader] == Leader(k, n.flights[k]);
        }
      }
      forall r | r in n.readers ensures RoleInv(n, n.readers[r]) {
        if r != reader { assert RoleInv(t, t.readers[r]); }
      }
      forall r, q | r in n.readers && q in n.readers && r != q && n.readers[r].Leader? && n.readers[q].Leader?
        ensures n.readers[r].key != n.readers[q].key
      {
        if r != reader { assert RoleInv(t, t.readers[r]); }
        if q != reader { assert RoleInv(t, t.readers[q]); }
      }
    }
  }

  lemma LeaveKeeps(t: Table, reader: nat)
    requires Inv(t)
    ensures Inv(Next(t, Leave(reader)))
  {
    var n := Next(t, Leave(reader));
    if n != t {
      assert RoleInv(t, t.readers[reader]);
      forall k | k in n.flights ensures n.flights[k] < n.nextEvent && Led(n, k) {
        assert Led(t, k);
        var r :| r in t.readers && t.readers[r] == Leader(k, t.flights[k]);
        assert n.readers[r] == t.readers[r];
      }
      forall r | r in n.readers ensures RoleInv(n, n.readers[r]) {
        if r != reader { assert RoleInv(t, t.readers[r]); }
      }
    }
  }

  /** Over every interleaving of readers. */
  lemma {:induction false} AlwaysInv(steps: seq<Step>)
    ensures Inv(Run(steps))
  {
    if steps != [] {
      var init, last := steps[..|steps| - 1], steps[|steps| - 1];
      AlwaysInv(init);
      match last
      case Enter(reader, key) => EnterKeeps(Run(init), reader, key);
      case Leave(reader) => LeaveKeeps(Run(init), reader);
    }
  }

  predicate Leads(t: Table, reader: nat, key: string)
  {
    reader in t.readers && t.readers[reader].Leader? && t.readers[reader].key == key
  }

  /** A key is in the dictionary exactly while a leader for it is active, and then exactly one is. */
  lemma OneLeaderExactly(steps: seq<Step>, key: string)
    ensures var t := Run(steps);
      && (key in t.flights <==> exists r :: Leads(t, r, key))
      && (forall r, q :: Leads(t, r, key) && Leads(t, q, key) ==> r == q)
  {
    AlwaysInv(steps);
    var t := Run(steps);
    if key in t.flights {
      assert Led(t, key);
      var r :| r in t.readers && t.readers[r] == Leader(key, t.flights[key]);
      assert Leads(t, r, key);
    }
    if r :| Leads(t, r, key) { assert RoleInv(t, t.readers[r]); }
  }

  /** A leader that leaves finds its own flight, and everybody waiting on it is woken. */
  lemma LeaderWakesFollowers(steps: seq<Step>, leader: nat, follower: nat)
    requires var t := Run(steps);
      leader in t.readers && t.readers[leader].Leader? && follower in t.readers && t.readers[follower].Follower?
    requires Run(steps).readers[follower].event == Run(steps).readers[leader].event
    ensures var t, n := Run(steps), Run(steps + [Leave(leader)]);
      && t.readers[leader].key in t.flights && t.flights[t.readers[leader].key] == t.readers[leader].event
      && !n.broken && t.readers[leader].key !in n.flights && t.readers[follower].event in n.signalled
  {
    AlwaysInv(steps);
    var t := Run(steps);
    assert RoleInv(t, t.readers[leader]);
    RunThen(steps, Leave(leader));
  }

  /** No follower is ever left behind: once no leader for its key is active, its event is set. */
  lemma NobodyWaitsInVain(steps: seq<Step>, follower: nat)
    requires var t := Run(steps); follower in t.readers && t.readers[follower].Follower?
    ensures var t := Run(steps);
      var role := t.readers[follower];
      role.event in t.signalled || exists r :: r in t.readers && t.readers[r] == Leader(role.key, role.event)
  {
    AlwaysInv(steps);
    var t := Run(steps);
    var role := t.readers[follower];
    assert RoleInv(t, role);
    if role.event !in t.signalled { assert Led(t, role.key); }
  }

  lemma RunThen(steps: seq<Step>, step: Step)
    ensures Run(steps + [step]) == Next(Run(steps), step)
  {
    assert (steps + [step])[..|steps|] == steps;
  }

  lemma OwnFlight(t: Table, reader: nat)
    requires Inv(t) && reader in t.readers && t.readers[reader].Leader?
    ensures t.readers[reader].key in t.flights && t.flights[t.readers[reader].key] == t.readers[reader].event
  {
    assert RoleInv(t, t.readers[reader]);
  }
}
