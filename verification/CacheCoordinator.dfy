/**
 * Read-through with single flight, and the explicit cache operations, beside any number of other readers and writers.
 */
module CacheCoordinator {
  import opened Wrappers
  import opened CanonicalJson
  import opened CacheModel
  import opened CacheHistory
  import opened CacheReads
  import opened CacheBackend
  import JsonText
  import SingleFlight

  /** The `flights` dictionary with its events; `trace` is the run of readers it has seen. */
  class FlightTable {
    var flights: map<string, nat>
    var signalled: set<nat>
    var nextEvent: nat
    var readers: map<nat, SingleFlight.Role>
    ghost var trace: seq<SingleFlight.Step>

    constructor ()
      ensures Valid() && flights == map[] && readers == map[]
    {
      flights, signalled, nextEvent, readers, trace := map[], {}, 0, map[], [];
    }

    ghost predicate Valid()
      reads this
    {
      SingleFlight.Run(trace) == SingleFlight.Table(flights, signalled, nextEvent, readers, false)
    }

    method Enter(reader: nat, key: string) returns (leader: bool, event: nat)
      requires Valid() && (reader in readers ==> readers[reader].Gone?)
      modifies this
      ensures Valid() && trace == old(trace) + [SingleFlight.Enter(reader, key)]
      ensures leader <==> key !in SingleFlight.Run(old(trace)).flights
      ensures readers == old(readers)[reader :=
        if leader then SingleFlight.Leader(key, event) else SingleFlight.Follower(key, event)]
    {
      SingleFlight.RunThen(trace, SingleFlight.Enter(reader, key));
      leader := key !in flights;
      if leader {
        event := nextEvent;
        nextEvent := nextEvent + 1;
        flights := flights[key := event];
        readers := readers[reader := SingleFlight.Leader(key, event)];
      } else {
        event := flights[key];
        readers := readers[reader := SingleFlight.Follower(key, event)];
      }
      trace := trace + [SingleFlight.Enter(reader, key)];
    }

    /** A leader takes its flight out, which is always there, and sets its event; a follower just goes. */
    method Leave(reader: nat)
      requires Valid() && reader in readers && !readers[reader].Gone?
      modifies this
      ensures Valid() && trace == old(trace) + [SingleFlight.Leave(reader)]
      ensures readers == old(readers)[reader := SingleFlight.Gone]
      ensures old(readers[reader]).Leader? ==>
        old(readers[reader]).event in signalled && old(readers[reader]).key !in flights
    {
      hide SingleFlight.Run;
      SingleFlight.RunThen(trace, SingleFlight.Leave(reader));
      SingleFlight.AlwaysInv(trace);
      var role := readers[reader];
      if role.Leader? {
        SingleFlight.OwnFlight(SingleFlight.Run(trace), reader);
        var finished := flights[role.key];
        flights := flights - {role.key};
        signalled := signalled + {finished};
      }
      readers := readers[reader := SingleFlight.Gone];
      trace := trace + [SingleFlight.Leave(reader)];
    }

    /** Other readers enter and leave. */
    method PerformAll(steps: seq<SingleFlight.Step>, ghost me: nat)
      requires Valid() && forall s :: s in steps ==> s.reader != me
      modifies this
      ensures Valid() && trace == old(trace) + steps
      ensures me in readers <==> me in old(readers)
      ensures me in readers ==> readers[me] == old(readers)[me]
    {
      for i := 0 to |steps|
        invariant Valid() && trace == old(trace) + steps[..i]
        invariant me in readers <==> me in old(readers)
        invariant me in readers ==> readers[me] == old(readers)[me]
      {
        assert old(trace) + steps[..i + 1] == old(trace) + steps[..i] + [steps[i]];
        Perform(steps[i]);
      }
      assert steps[..|steps|] == steps;
    }

    method Perform(step: SingleFlight.Step)
      requires Valid()
      modifies this
      ensures Valid() && trace == old(trace) + [step]
      ensures forall r :: r != step.reader ==> (r in readers <==> r in old(readers))
      ensures forall r :: r != step.reader && r in readers ==> readers[r] == old(readers)[r]
    {
      match step {
        case Enter(reader, key) =>
          if reader in readers && !readers[reader].Gone? { Skip(step); } else { var _, _ := Enter(reader, key); }
        case Leave(reader) =>
          if reader in readers && !readers[reader].Gone? { Leave(reader); } else { Skip(step); }
      }
    }

    ghost method Skip(step: SingleFlight.Step)
      requires Valid()
      requires SingleFlight.Next(SingleFlight.Run(trace), step) == SingleFlight.Run(trace)
      modifies this`trace
      ensures Valid() && trace == old(trace) + [step]
    {
      SingleFlight.RunThen(trace, step);
      trace := trace + [step];
    }
  }

  /** The steps of one reader's flight, with what the others do meanwhile. */
  ghost function Flight(me: nat, text: string, w: World): seq<SingleFlight.Step>
  {
    w.readers(0) + [SingleFlight.Enter(me, text)] + w.readers(1) + w.readers(2) + [SingleFlight.Leave(me)]
  }

  /** No leader for this key is active when the reader enters. */
  ghost predicate Leads(trace: seq<SingleFlight.Step>, key: Json, w: World)
  {
    JsonText.CanonicalText(key) !in SingleFlight.Run(trace + w.readers(0)).flights
  }

  /** What a caller of a coordinator does, and what others do between two calls. */
  datatype Call = Read(identity: map<string, Json>, loader: Loader, required: Version, now: int, world: World)
                | PutIfAbsent(identity: map<string, Json>, value: Loaded, ttl: Option<int>, now: int)
                | CompareAndSet(identity: map<string, Json>, value: Loaded, expected: int, ttl: Option<int>, now: int)
                | Delete(identity: map<string, Json>)
                | Invalidate
                | Others(actions: seq<Action>)
  {
    /** The others write only what was loaded or given. */
    ghost predicate Proper(me: nat)
    {
      match this
      case Read(_, _, _, _, world) => world.Foreign(me) && forall n :: Untampered(world.backend(n))
      case Others(actions) => Untampered(actions)
      case _ => true
    }
  }

  class Coordinator {
    const policy: Policy
    const comparator: Comparator
    const backend: InMemoryCacheBackend
    const table: FlightTable

    constructor (policy: Policy, comparator: Comparator, backend: InMemoryCacheBackend, table: FlightTable)
      requires policy.WellFormed()
      ensures this.policy == policy && this.comparator == comparator && this.backend == backend && this.table == table
    {
      this.policy, this.comparator, this.backend, this.table := policy, comparator, backend, table;
    }

    ghost function Asks(key: Json, required: Version): Query
    {
      Query(policy, comparator, key, required)
    }

    /**
     * Look the key up. Whatever cannot be served is deleted, and a failed deletion is ignored; a failed lookup is fatal
     * only without fallback.
     */
    method Cached(key: Json, required: Version, now: int, between: seq<Action>)
      returns (unavailable: bool, read: Option<CacheRead>, code: Option<string>)
      requires backend.Valid()
      modifies backend
      ensures backend.Valid() && backend.trace == Lookup(old(backend.trace), Asks(key, required), now, between)
      ensures unavailable <==> read.None? && Fatal(old(backend.trace), Asks(key, required))
      ensures read.None? ==>
        code == Code(old(backend.trace), None) && !Found(old(backend.trace), Asks(key, required), now)
      ensures read.Some? ==> Found(old(backend.trace), Asks(key, required), now)
      ensures read.Some? ==>
        read.value == Serve(Finds(Run(old(backend.trace)), Asks(key, required), now).value.entry)
    {
      hide ValidEntry, CacheModel.Fresh, Run, JsonText.CanonicalText, JsonText.Parse;
      unavailable, read, code := false, None, None;
      var place := KeyOf(policy.cacheResource, key);
      var ok, found := backend.Get(place);
      backend.Looked(Asks(key, required), now);
      if !ok {
        unavailable := !policy.fallbackToAuthoritative;
        return unavailable, None, Some(FAILED);
      }
      if found.None? { return; }
      var entry := found.value.entry;
      ValidIsFresh(policy, comparator, entry, required, now);
      if !ValidEntry(policy, comparator, entry, required, now) {
        backend.PerformAll(between);
        var _, _ := backend.Delete(place);
        return;
      }
      if entry.value == NEGATIVE {
        read := Some(CacheRead(None, entry.version, NegativeHit, None));
        return;
      }
      var encoded := Untagged(entry.value);
      var value := if encoded.Some? then Decode(encoded.value) else None;
      if value.None? {
        backend.PerformAll(between);
        var _, _ := backend.Delete(place);
        return;
      }
      read := Some(CacheRead(value, entry.version, Hit, None));
    }

    /** What the loader answered, as it is to be stored. */
    function AnswerOf(key: Json, loader: Loader, now: int): Answer
      requires loader.Returns?
    {
      LoaderAnswer(policy, key, loader.loaded, now)
    }

    /** Ask the loader, encode its answer whatever the policy, and store what it answered if the policy says so. */
    method Load(key: Json, loader: Loader, code: Option<string>, now: int, world: World, point: nat,
                ghost required: Version)
      returns (result: Result<CacheRead, ReadError>)
      requires backend.Valid()
      modifies backend
      ensures backend.Valid()
      ensures Done(backend.trace, result) ==
        CacheReads.Load(old(backend.trace), Asks(key, required), loader, now, world, point, code)
    {
      hide Run, JsonText.CanonicalText;
      backend.PerformAll(world.backend(point));
      if !loader.Works() { return Err(Failure(loader)); }
      var answer := AnswerOf(key, loader, now);
      ghost var logged := |backend.answers|;
      ghost var asked := backend.trace;
      backend.Answered(answer);
      var error := code;
      if answer.ttl.Some? {
        backend.PerformAll(world.backend(point + 1));
        AnswersStay(asked, world.backend(point + 1), answer);
        var ok, _ := backend.Put(answer.Stored(), policy.cacheResource, logged);
        if !ok { error := Some(FAILED); }
      }
      result := Ok(FromLoader(loader.loaded, if error.Some? then Bypass else Miss, error));
    }

    /** A follower, once woken or tired of waiting: look again, and load for itself if need be. */
    method Follow(key: Json, loader: Loader, required: Version, ghost now: int, code: Option<string>, world: World)
      returns (result: Result<CacheRead, ReadError>)
      requires backend.Valid()
      modifies backend
      ensures backend.Valid()
      ensures Done(backend.trace, result) ==
        CacheReads.Follow(old(backend.trace), Request(Asks(key, required), loader, now, world), code)
    {
      hide Run, Lookup, Found, Serve, CacheReads.Load, InMemoryCacheBackend.Valid;
      backend.PerformAll(world.backend(4));
      var unavailable, cached, failure := Cached(key, required, world.clock(0), world.backend(5));
      if unavailable { return Err(Unavailable); }
      if cached.Some? { return Ok(cached.value); }
      result := Load(key, loader, if failure.Some? then failure else code, world.clock(1), world, 6, required);
    }

    /** The leader loads right away; a follower looks again first. */
    method Join(leader: bool, key: Json, loader: Loader, required: Version, now: int, code: Option<string>,
                world: World)
      returns (result: Result<CacheRead, ReadError>)
      requires backend.Valid()
      modifies backend
      ensures backend.Valid()
      ensures Done(backend.trace, result) ==
        CacheReads.Join(old(backend.trace), Request(Asks(key, required), loader, now, world), leader, code)
    {
      hide CacheReads.Load, CacheReads.Follow, InMemoryCacheBackend.Valid;
      if leader {
        result := Load(key, loader, code, now, world, 2, required);
      } else {
        result := Follow(key, loader, required, now, code, world);
      }
    }

    /** Nothing served yet: lead the flight of this key, or follow whoever leads it, and get out of the flight again. */
    method Fly(me: nat, key: Json, loader: Loader, required: Version, now: int, code: Option<string>, world: World)
      returns (result: Result<CacheRead, ReadError>, ghost leader: bool)
      requires backend.Valid() && table.Valid()
      requires world.Foreign(me) && (me in table.readers ==> table.readers[me].Gone?)
      modifies backend, table
      ensures backend.Valid() && table.Valid()
      ensures me in table.readers && table.readers[me].Gone?
      ensures table.trace == old(table.trace) + Flight(me, JsonText.CanonicalText(key), world)
      ensures leader == Leads(old(table.trace), key, world)
      ensures Done(backend.trace, result) ==
        CacheReads.Join(old(backend.trace), Request(Asks(key, required), loader, now, world), leader, code)
    {
      hide CacheReads.Join, JsonText.CanonicalText, InMemoryCacheBackend.Valid, FlightTable.Valid, SingleFlight.Run;
      table.PerformAll(world.readers(0), me);
      var leads, _ := table.Enter(me, JsonText.CanonicalText(key));
      leader := leads;
      table.PerformAll(world.readers(1), me);
      result := Join(leads, key, loader, required, now, code, world);
      table.PerformAll(world.readers(2), me);
      table.Leave(me);
    }

    /** A read, beside everybody else: the whole of what it does to the cache and the flights, and its answer. */
    method Read(me: nat, identity: map<string, Json>, loader: Loader, required: Version, now: int, world: World)
      returns (result: Result<CacheRead, ReadError>, ghost leader: bool)
      requires backend.Valid() && table.Valid()
      requires world.Foreign(me) && (me in table.readers ==> table.readers[me].Gone?)
      modifies backend, table
      ensures backend.Valid() && table.Valid()
      ensures me in table.readers ==> table.readers[me].Gone?
      ensures !policy.enabled ==> backend.trace == old(backend.trace) && table.trace == old(table.trace)
      ensures !policy.enabled ==>
        if loader.Raises? then result == Err(LoaderRaised(loader.code))
        else result.Ok? && HandsOn(result.value, loader.loaded) && result.value.outcome.Bypass?
             && result.value.cacheError.None?
      ensures policy.enabled && Key(policy, identity).Err? <==> result.Err? && result.error.BadKey?
      ensures result.Err? && result.error.BadKey? ==>
        && backend.trace == old(backend.trace) && table.trace == old(table.trace)
        && result.error.key == Key(policy, identity).error
      ensures policy.enabled && Key(policy, identity).Ok? ==>
        Done(backend.trace, result)
        == CacheReads.Read(old(backend.trace), Requested(identity, loader, required, now, world), leader)
      ensures policy.enabled && Key(policy, identity).Ok? ==>
        table.trace
        == old(table.trace) + FlightOf(old(backend.trace), me, Requested(identity, loader, required, now, world))
      ensures table.trace != old(table.trace) ==> leader == Leads(old(table.trace), Key(policy, identity).value, world)
    {
      hide CacheReads.Join, Key, Last, Lookup, Run, SingleFlight.Run, FlightTable.Valid, InMemoryCacheBackend.Valid;
      leader := true;
      if !policy.enabled {
        if loader.Raises? { return Err(LoaderRaised(loader.code)), leader; }
        return Ok(FromLoader(loader.loaded, Bypass, None)), leader;
      }
      var key := Key(policy, identity);
      if key.Err? { return Err(BadKey(key.error)), leader; }
      backend.PerformAll(world.backend(0));
      var unavailable, cached, code := Cached(key.value, required, now, world.backend(1));
      if unavailable { return Err(Unavailable), leader; }
      if cached.Some? { return Ok(cached.value), leader; }
      ghost var before := old(backend.trace);
      result, leader := Fly(me, key.value, loader, required, now, code, world);
      ReadAnswers(before, Requested(identity, loader, required, now, world), leader);
    }

    ghost function Requested(identity: map<string, Json>, loader: Loader, required: Version, now: int,
                             world: World): Request
      requires Key(policy, identity).Ok?
    {
      Request(Asks(Key(policy, identity).value, required), loader, now, world)
    }

    ghost function FlightOf(trace: seq<Action>, me: nat, r: Request): seq<SingleFlight.Step>
    {
      if Flies(trace, r) then Flight(me, JsonText.CanonicalText(r.query.key), r.world) else []
    }

    /** The bounds on an explicit time to live. */
    predicate InBounds(ttl: Option<int>)
    {
      ttl.Some? ==> 0 < ttl.value <= policy.maximumTtl
    }

    /** The time to live is within bounds, and key and value can be encoded. */
    predicate Puts(identity: map<string, Json>, value: Loaded, ttl: Option<int>)
    {
      InBounds(ttl) && Key(policy, identity).Ok? && Encodable(value.value)
    }

    /** An explicitly given value, as it is to be stored. */
    function GivenAnswer(identity: map<string, Json>, value: Loaded, ttl: Option<int>, now: int): Answer
      requires Key(policy, identity).Ok?
    {
      Given(policy, Key(policy, identity).value, value, now, if ttl.Some? then ttl.value else policy.defaultTtl)
    }

    function PlaceOf(identity: map<string, Json>): StoreKey
      requires Key(policy, identity).Ok?
    {
      KeyOf(policy.cacheResource, Key(policy, identity).value)
    }

    /** The key holds this value and version, written now, for this long. */
    ghost predicate Kept(identity: map<string, Json>, value: Loaded, now: int, ttl: int)
      reads backend
    {
      && Key(policy, identity).Ok? && Encodable(value.value) && PlaceOf(identity) in backend.entries
      && Keeps(backend.entries[PlaceOf(identity)].entry, policy, Tagged(Encode(value.value)), value.version, now, ttl)
    }

    /** Store a given value unless the key is taken. */
    method PutIfAbsent(identity: map<string, Json>, value: Loaded, ttl: Option<int>, now: int)
      returns (ok: bool, stored: bool)
      requires backend.Valid() && policy.WellFormed()
      modifies backend
      ensures backend.Valid()
      ensures ok <==> old(backend.available) && Puts(identity, value, ttl)
      ensures stored <==> ok && PlaceOf(identity) !in old(backend.entries)
      ensures stored ==> Holds(backend.History(), GivenAnswer(identity, value, ttl, now))
      ensures stored ==> Kept(identity, value, now, if ttl.Some? then ttl.value else policy.defaultTtl)
      ensures !stored ==> backend.entries == old(backend.entries)
      ensures backend.trace == old(backend.trace)
        + if Puts(identity, value, ttl)
          then [Action.PutIfAbsent(GivenAnswer(identity, value, ttl, now))] else []
    {
      hide Run, Key, JsonText.CanonicalText;
      var selected := if ttl.Some? then ttl.value else policy.defaultTtl;
      if selected <= 0 || selected > policy.maximumTtl || Key(policy, identity).Err? || !Encodable(value.value) {
        return false, false;
      }
      var answer := GivenAnswer(identity, value, ttl, now);
      ghost var before := backend.trace;
      ok, stored := backend.PutIfAbsent(answer.Stored(), policy.cacheResource, answer);
      if stored { PutHolds(before, answer, 0); }
    }

    /** Replace exactly the entry the caller saw under the expected version, or nothing. */
    method CompareAndSet(identity: map<string, Json>, value: Loaded, expected: int, ttl: Option<int>, now: int)
      returns (ok: bool, stored: bool)
      requires backend.Valid() && policy.WellFormed()
      modifies backend
      ensures backend.Valid()
      ensures ok <==> old(backend.available) && Puts(identity, value, ttl)
      ensures stored <==> ok && HasVersion(old(backend.History()), PlaceOf(identity), expected)
      ensures stored ==> Holds(backend.History(), GivenAnswer(identity, value, ttl, now))
      ensures stored ==> Kept(identity, value, now, if ttl.Some? then ttl.value else policy.defaultTtl)
      ensures !stored ==> backend.entries == old(backend.entries)
      ensures backend.trace == old(backend.trace)
        + if Puts(identity, value, ttl)
          then [Action.CompareAndSet(GivenAnswer(identity, value, ttl, now), expected)] else []
    {
      hide Run, Key, JsonText.CanonicalText;
      var selected := if ttl.Some? then ttl.value else policy.defaultTtl;
      if selected <= 0 || selected > policy.maximumTtl || Key(policy, identity).Err? || !Encodable(value.value) {
        return false, false;
      }
      var answer := GivenAnswer(identity, value, ttl, now);
      ghost var before := backend.trace;
      ok, stored := backend.CompareAndSet(answer.Stored(), policy.cacheResource, expected, answer);
      if stored { PutHolds(before, answer, expected); }
    }

    method Delete(identity: map<string, Json>) returns (ok: bool, removed: bool)
      requires backend.Valid()
      modifies backend
      ensures backend.Valid()
      ensures ok <==> backend.available && Key(policy, identity).Ok?
      ensures removed <==> ok && PlaceOf(identity) in old(backend.entries)
      ensures backend.entries == if ok then old(backend.entries) - {PlaceOf(identity)} else old(backend.entries)
      ensures backend.trace == old(backend.trace)
        + if Key(policy, identity).Ok? then [Action.Delete(PlaceOf(identity))] else []
    {
      hide Run, Key, JsonText.CanonicalText;
      if Key(policy, identity).Err? { return false, false; }
      ok, removed := backend.Delete(PlaceOf(identity));
    }

    /** The keys of this coordinator's cache. */
    ghost function Mine(entries: map<StoreKey, VersionedEntry>): set<StoreKey>
    {
      set k | k in entries && k.resource == policy.cacheResource
    }

    /** Drop every entry of this coordinator's cache. */
    method InvalidateAfterCommit() returns (ok: bool, count: nat)
      requires backend.Valid()
      modifies backend
      ensures backend.Valid() && backend.trace == old(backend.trace) + [Action.Invalidate(policy.cacheResource)]
      ensures ok <==> old(backend.available)
      ensures ok ==> backend.entries == old(backend.entries) - Mine(old(backend.entries))
      ensures ok ==> count == |Mine(old(backend.entries))|
      ensures !ok ==> backend.entries == old(backend.entries) && count == 0
    {
      hide Run;
      ok, count := backend.Invalidate(policy.cacheResource);
      if !ok { count := 0; }
    }

    // -------------------------------------------------- runs of operations

    /**
     * A read answers with what a loader or caller gave for its key before it was looked up during this very call, still
     * good at that time, or with its own loader's answer; with fallback, it fails only if its loader does or the key is
     * bad.
     */
    ghost predicate Justified(before: seq<Action>, after: seq<Action>, call: Call, result: Result<CacheRead, ReadError>)
      requires call.Read?
    {
      && (result.Ok? ==> FromEarlier(before, after, call, result.value) || FromOwnLoader(call, result.value))
      && (result.Err? && policy.fallbackToAuthoritative ==>
            || result.error.BadKey?
            || Blames(result.error, call.loader))
    }

    ghost predicate FromEarlier(before: seq<Action>, after: seq<Action>, call: Call, read: CacheRead)
      requires call.Read?
    {
      Key(policy, call.identity).Ok? && exists i: nat :: EarlierAnswer(before, after, call, read, i)
    }

    ghost predicate EarlierAnswer(before: seq<Action>, after: seq<Action>, call: Call, read: CacheRead, i: nat)
      requires call.Read? && Key(policy, call.identity).Ok?
    {
      GivesBack(Run(after), |Run(before).served|, Asks(Key(policy, call.identity).value, call.required),
                {call.now, call.world.clock(0)}, read, i)
    }

    ghost predicate FromOwnLoader(call: Call, read: CacheRead)
      requires call.Read?
    {
      && call.loader.Returns? && (read.outcome.Miss? || read.outcome.Bypass?)
      && HandsOn(read, call.loader.loaded)
    }

    ghost predicate Justifies(before: seq<Action>, after: seq<Action>, call: Call,
                              result: Option<Result<CacheRead, ReadError>>)
    {
      && (call.Read? <==> result.Some?) && (call.Read? ==> Justified(before, after, call, result.value))
      && Does(before, after, call, result)
    }

    /** The call takes the run from `before` to `after`, and if it is a read gives this result. */
    ghost predicate Does(before: seq<Action>, after: seq<Action>, call: Call,
                         result: Option<Result<CacheRead, ReadError>>)
    {
      match call
      case Read(identity, loader, required, now, world) =>
        if !policy.enabled || Key(policy, identity).Err? then after == before
        else
          var r := Requested(identity, loader, required, now, world);
          exists leader: bool :: result.Some? && Done(after, result.value) == CacheReads.Read(before, r, leader)
      case PutIfAbsent(identity, value, ttl, now) =>
        after == before + if Puts(identity, value, ttl)
                          then [Action.PutIfAbsent(GivenAnswer(identity, value, ttl, now))] else []
      case CompareAndSet(identity, value, expected, ttl, now) =>
        after == before + if Puts(identity, value, ttl)
                          then [Action.CompareAndSet(GivenAnswer(identity, value, ttl, now), expected)] else []
      case Delete(identity) =>
        after == before + if Key(policy, identity).Ok? then [Action.Delete(PlaceOf(identity))] else []
      case Invalidate => after == before + [Action.Invalidate(policy.cacheResource)]
      case Others(actions) => after == before + actions
    }

    /** A read with a valid key is justified. */
    lemma ReadIsJustified(before: seq<Action>, call: Call, leader: bool)
      requires call.Read? && Key(policy, call.identity).Ok?
      requires Untampered(before) && forall n :: Untampered(call.world.backend(n))
      ensures var r := Requested(call.identity, call.loader, call.required, call.now, call.world);
        var d := CacheReads.Read(before, r, leader);
        before <= d.trace && Untampered(d.trace) && Justified(before, d.trace, call, d.result)
    {
      hide Run, Key, GivesBack, CacheReads.Read, Untampered;
      var r := Requested(call.identity, call.loader, call.required, call.now, call.world);
      var d := CacheReads.Read(before, r, leader);
      ReadExtends(before, r, leader);
      ReadIsTransparent(before, r, leader);
      if FromCache(d) {
        var i: nat :| GivesBack(Run(d.trace), |Run(before).served|, r.query, Times(r), d.result.value, i);
        assert EarlierAnswer(before, d.trace, call, d.result.value, i);
      }
    }

    /** One call, which tampers with nothing. */
    method Perform(me: nat, call: Call) returns (result: Option<Result<CacheRead, ReadError>>)
      requires backend.Valid() && table.Valid() && policy.WellFormed() && Untampered(backend.trace)
      requires call.Proper(me) && (me in table.readers ==> table.readers[me].Gone?)
      modifies backend, table
      ensures backend.Valid() && table.Valid() && (me in table.readers ==> table.readers[me].Gone?)
      ensures old(backend.trace) <= backend.trace && Untampered(backend.trace)
      ensures Justifies(old(backend.trace), backend.trace, call, result)
    {
      hide Run, Key, FromEarlier, CacheReads.Read;
      result := None;
      match call {
        case Read(identity, loader, required, now, world) =>
          ghost var before := backend.trace;
          var answer; ghost var leader;
          answer, leader := Read(me, identity, loader, required, now, world);
          result := Some(answer);
          if policy.enabled && Key(policy, identity).Ok? { ReadIsJustified(before, call, leader); }
        case PutIfAbsent(identity, value, ttl, now) => var _, _ := PutIfAbsent(identity, value, ttl, now);
        case CompareAndSet(identity, value, expected, ttl, now) =>
          var _, _ := CompareAndSet(identity, value, expected, ttl, now);
        case Delete(identity) => var _, _ := Delete(identity);
        case Invalidate => var _, _ := InvalidateAfterCommit();
        case Others(actions) =>
          UntamperedAnd(backend.trace, actions);
          backend.PerformAll(actions);
      }
    }

    /**
     * Any history of calls, outages and losses. Call number `i` extends the run from its first `ends[i]` steps to its
     * first `ends[i + 1]`, and every read is justified by what came before, at the times it looked.
     */
    method PerformAll(me: nat, calls: seq<Call>)
      returns (results: seq<Option<Result<CacheRead, ReadError>>>, ghost ends: seq<nat>)
      requires backend.Valid() && table.Valid() && policy.WellFormed() && Untampered(backend.trace)
      requires (forall c :: c in calls ==> c.Proper(me)) && (me in table.readers ==> table.readers[me].Gone?)
      modifies backend, table
      ensures backend.Valid() && table.Valid() && old(backend.trace) <= backend.trace && |results| == |calls|
      ensures Marks(ends, |calls|, |old(backend.trace)|, |backend.trace|)
      ensures forall i :: 0 <= i < |calls| ==>
        Justifies(backend.trace[..ends[i]], backend.trace[..ends[i + 1]], calls[i], results[i])
    {
      hide Justifies, Untampered;
      results, ends := [], [|backend.trace|];
      for n := 0 to |calls|
        invariant backend.Valid() && table.Valid() && old(backend.trace) <= backend.trace && |results| == n
        invariant Untampered(backend.trace) && (me in table.readers ==> table.readers[me].Gone?)
        invariant Marks(ends, n, |old(backend.trace)|, |backend.trace|)
        invariant forall i :: 0 <= i < n ==>
          Justifies(backend.trace[..ends[i]], backend.trace[..ends[i + 1]], calls[i], results[i])
      {
        ghost var before := backend.trace;
        var result := Perform(me, calls[n]);
        assert forall k :: 0 <= k <= |before| ==> backend.trace[..k] == before[..k];
        assert before[..|before|] == before && backend.trace[..|backend.trace|] == backend.trace;
        results, ends := results + [result], ends + [|backend.trace|];
      }
    }
  }

  /** These positions run from the first to the last without going back. */
  ghost predicate Marks(ends: seq<nat>, calls: nat, first: nat, last: nat)
  {
    && |ends| == calls + 1 && ends[0] == first && ends[calls] == last
    && forall i, j :: 0 <= i <= j <= calls ==> ends[i] <= ends[j]
  }
}
