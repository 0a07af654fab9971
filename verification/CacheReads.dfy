/** A read as a whole, beside any number of other readers and writers: what it does to the cache and what it answers. */
module CacheReads {
  import opened Wrappers
  import opened CanonicalJson
  import opened CacheModel
  import opened CacheHistory
  import SingleFlight

  datatype ReadError = Unavailable | LoaderRaised(code: string) | NotEncodable | BadKey(key: KeyError)

  /** The authoritative source, asked at most once per read. */
  datatype Loader = Raises(code: string) | Returns(loaded: Option<Loaded>)
  {
    /** It answers, with nothing or with a value the serializer can encode. */
    predicate Works() { Returns? && (loaded.Some? ==> Encodable(loaded.value.value)) }
  }

  /** The error of a load that does not work. */
  function Failure(loader: Loader): ReadError
  {
    if loader.Raises? then LoaderRaised(loader.code) else NotEncodable
  }

  const FAILED := "cache-failure"

  function FromLoader(loaded: Option<Loaded>, outcome: Outcome, error: Option<string>): CacheRead
  {
    if loaded.None? then CacheRead(None, NoVersion, outcome, error)
    else CacheRead(Some(loaded.value.value), loaded.value.version, outcome, error)
  }

  /** What others do to the cache and among the readers at each point of a read, and the clock at the later points. */
  datatype World = World(backend: nat -> seq<Action>, readers: nat -> seq<SingleFlight.Step>, clock: nat -> int)
  {
    ghost predicate Foreign(me: nat) { forall n: nat, s :: s in readers(n) ==> s.reader != me }
  }

  datatype Request = Request(query: Query, loader: Loader, now: int, world: World)

  /** Everything done to the cache so far, and the answer. */
  datatype Done = Done(trace: seq<Action>, result: Result<CacheRead, ReadError>)

  ghost predicate Found(trace: seq<Action>, q: Query, now: int)
  {
    Finds(Run(trace), q, now).Some?
  }

  /** An outage fails a lookup only where there is no fallback. */
  ghost predicate Fatal(trace: seq<Action>, q: Query)
  {
    !Run(trace).available && !q.policy.fallbackToAuthoritative
  }

  ghost function Code(trace: seq<Action>, code: Option<string>): Option<string>
  {
    if Run(trace).available then code else Some(FAILED)
  }

  /** A lookup deletes what it finds and cannot serve. */
  ghost function Lookup(trace: seq<Action>, q: Query, now: int, between: seq<Action>): seq<Action>
  {
    if Run(trace).available && q.Place() in Run(trace).entries && !Found(trace, q, now)
    then trace + [Look(q, now)] + between + [Delete(q.Place())]
    else trace + [Look(q, now)]
  }

  /**
   * The loader's answer is encoded, even if it is not stored then, and logged; it is stored if the policy says so. A
   * failed store only shows in the outcome.
   */
  ghost function Load(trace: seq<Action>, q: Query, loader: Loader, now: int, world: World, point: nat,
                      code: Option<string>): Done
  {
    var asked := trace + world.backend(point);
    if !loader.Works() then Done(asked, Err(Failure(loader)))
    else
      var answer := LoaderAnswer(q.policy, q.key, loader.loaded, now);
      var answered := asked + [Answers(answer)];
      if answer.ttl.None? then Done(answered, Ok(Fresh(loader, code)))
      else
        var storing := answered + world.backend(point + 1);
        Done(storing + [Store(|Run(asked).answers|)], Ok(Fresh(loader, Code(storing, code))))
  }

  function Fresh(loader: Loader, error: Option<string>): CacheRead
    requires loader.Returns?
  {
    FromLoader(loader.loaded, if error.Some? then Bypass else Miss, error)
  }

  /** A follower, once woken or tired of waiting: look again, and load for itself if need be. */
  ghost function Follow(trace: seq<Action>, r: Request, code: Option<string>): Done
  {
    var q, w := r.query, r.world;
    var waited := trace + w.backend(4);
    var looked := Lookup(waited, q, w.clock(0), w.backend(5));
    if Found(waited, q, w.clock(0)) then Done(looked, Ok(Serve(Finds(Run(waited), q, w.clock(0)).value.entry)))
    else if Fatal(waited, q) then Done(looked, Err(Unavailable))
    else Load(looked, q, r.loader, w.clock(1), w, 6, Code(waited, code))
  }

  /** The leader of a flight loads right away; a follower looks again first. */
  ghost function Join(trace: seq<Action>, r: Request, leader: bool, code: Option<string>): Done
  {
    if leader then Load(trace, r.query, r.loader, r.now, r.world, 2, code) else Follow(trace, r, code)
  }

  /** A read with a valid key, as the leader of a flight or as a follower should it come to that. */
  ghost function Read(trace: seq<Action>, r: Request, leader: bool): Done
  {
    var q, w := r.query, r.world;
    var started := trace + w.backend(0);
    var looked := Lookup(started, q, r.now, w.backend(1));
    if Found(started, q, r.now) then Done(looked, Ok(Serve(Finds(Run(started), q, r.now).value.entry)))
    else if Fatal(started, q) then Done(looked, Err(Unavailable))
    else Join(looked, r, leader, Code(started, None))
  }

  /** Only a read that the first lookup neither serves nor fails joins a flight. */
  ghost predicate Flies(trace: seq<Action>, r: Request)
  {
    var started := trace + r.world.backend(0);
    !Found(started, r.query, r.now) && !Fatal(started, r.query)
  }

  // ------------------------------------------------------- transparency

  /** The times at which a read looks: at its start, and once more as a follower. */
  ghost function Times(r: Request): set<int>
  {
    {r.now, r.world.clock(0)}
  }

  /** The log of what was served ends with this read, made at one of these times and not among the first `since`. */
  ghost predicate Last(h: History, since: nat, q: Query, times: set<int>, read: CacheRead)
  {
    && |h.served| > since && h.served[|h.served| - 1].query == q
    && h.served[|h.served| - 1].now in times && h.served[|h.served| - 1].read == read
  }

  lemma LookupServes(trace: seq<Action>, q: Query, now: int, between: seq<Action>)
    requires Found(trace, q, now)
    ensures Last(Run(Lookup(trace, q, now, between)), |Run(trace).served|, q, {now},
                 Serve(Finds(Run(trace), q, now).value.entry))
  {
    hide Finds, Serve, Run;
    RunThen(trace, Look(q, now));
  }

  ghost predicate FromCache(d: Done)
  {
    d.result.Ok? && (d.result.value.outcome.Hit? || d.result.value.outcome.NegativeHit?)
  }

  /** The value and version the loader returned, or the absence it reported. */
  ghost predicate HandsOn(read: CacheRead, loaded: Option<Loaded>)
  {
    match loaded
    case Some(found) => read.value == Some(found.value) && read.version == found.version
    case None => read.value.None? && read.version.NoVersion?
  }

  /** A loader that raised, or returned what cannot be encoded, and the error that tells so. */
  ghost predicate Blames(error: ReadError, loader: Loader)
  {
    match loader
    case Raises(code) => error == LoaderRaised(code)
    case Returns(loaded) => loaded.Some? && !Encodable(loaded.value.value) && error == NotEncodable
  }

  /** Any other answer is exactly what the loader returned, and only a loader or an outage makes a read fail. */
  ghost predicate Loads(d: Done, q: Query, loader: Loader)
  {
    && (d.result.Ok? && !FromCache(d) ==>
          && loader.Works() && HandsOn(d.result.value, loader.loaded)
          && d.result.value.outcome == if d.result.value.cacheError.None? then Miss else Bypass)
    && (d.result.Err? ==>
          || (d.result == Err(Unavailable) && !q.policy.fallbackToAuthoritative)
          || Blames(d.result.error, loader))
  }

  /** What a read takes from the cache was served to it during the read. */
  ghost predicate ServedNow(trace: seq<Action>, r: Request, d: Done)
  {
    FromCache(d) ==> Last(Run(d.trace), |Run(trace).served|, r.query, Times(r), d.result.value)
  }

  /** Whatever a read answers was served to it just then or is what its loader returned; failing needs a reason. */
  lemma ReadAnswers(trace: seq<Action>, r: Request, leader: bool)
    ensures ServedNow(trace, r, Read(trace, r, leader))
    ensures Loads(Read(trace, r, leader), r.query, r.loader)
  {
    hide Run, Finds, Lookup, ServedNow;
    var q, w := r.query, r.world;
    var started := trace + w.backend(0);
    var looked := Lookup(started, q, r.now, w.backend(1));
    LookupExtends(started, q, r.now, w.backend(1));
    NotFromCache(trace, r, Load(looked, q, r.loader, r.now, w, 2, Code(started, None)));
    if Found(started, q, r.now) {
      FoundIsServed(trace, r, started, r.now, w.backend(1));
    } else {
      FollowAnswers(trace, looked, r, Code(started, None));
    }
    if Fatal(started, q) { NotFromCache(trace, r, Done(looked, Err(Unavailable))); }
  }

  lemma FollowAnswers(trace: seq<Action>, looked: seq<Action>, r: Request, code: Option<string>)
    requires trace <= looked
    ensures ServedNow(trace, r, Follow(looked, r, code))
    ensures Loads(Follow(looked, r, code), r.query, r.loader)
  {
    hide Run, Finds, Lookup, ServedNow;
    var q, w := r.query, r.world;
    var waited := looked + w.backend(4);
    var again := Lookup(waited, q, w.clock(0), w.backend(5));
    if Found(waited, q, w.clock(0)) {
      FoundIsServed(trace, r, waited, w.clock(0), w.backend(5));
    }
    NotFromCache(trace, r, Done(again, Err(Unavailable)));
    NotFromCache(trace, r, Load(again, q, r.loader, w.clock(1), w, 6, Code(waited, code)));
  }

  lemma FoundIsServed(trace: seq<Action>, r: Request, found: seq<Action>, now: int, between: seq<Action>)
    requires trace <= found && now in Times(r) && Found(found, r.query, now)
    ensures ServedNow(trace, r, Done(Lookup(found, r.query, now, between),
                                     Ok(Serve(Finds(Run(found), r.query, now).value.entry))))
  {
    hide Run, Finds, Lookup, Serve;
    ServedGrows(trace, found);
    LookupServes(found, r.query, now, between);
  }

  lemma NotFromCache(trace: seq<Action>, r: Request, d: Done)
    ensures !FromCache(d) ==> ServedNow(trace, r, d)
  {
  }

  lemma ServedGrows(trace: seq<Action>, later: seq<Action>)
    requires trace <= later
    ensures |Run(trace).served| <= |Run(later).served|
  {
    hide Run;
    assert later == trace + later[|trace|..];
    RunGrows(trace, later[|trace|..]);
  }

  /** At one of these times, and not among the first `since` servings, this query got an answer logged before. */
  ghost predicate GivesBack(h: History, since: nat, q: Query, times: set<int>, read: CacheRead, i: nat)
  {
    exists n: nat :: since <= n < |h.served| && ServesThen(h.served[n], q, times, read) && Explains(h, h.served[n], i)
  }

  ghost predicate ServesThen(s: Served, q: Query, times: set<int>, read: CacheRead)
  {
    s.query == q && s.now in times && s.read == read
  }

  /**
   * Cache transparency, over every history: a read served from the cache is an answer some loader or caller gave before
   * for the same key, unexpired, fresh enough and of an acceptable version when it was looked up; any other is its own
   * loader's answer. With fallback a read fails exactly when it is not served and its loader does not work.
   */
  lemma ReadIsTransparent(trace: seq<Action>, r: Request, leader: bool)
    requires Untampered(Read(trace, r, leader).trace)
    ensures var d := Read(trace, r, leader);
      FromCache(d) ==> exists i: nat ::
        GivesBack(Run(d.trace), |Run(trace).served|, r.query, Times(r), d.result.value, i)
    ensures Loads(Read(trace, r, leader), r.query, r.loader)
    ensures var d := Read(trace, r, leader);
      r.query.policy.fallbackToAuthoritative ==> (d.result.Err? <==> !FromCache(d) && !r.loader.Works())
  {
    hide Run, Read, Explains;
    var d := Read(trace, r, leader);
    ReadAnswers(trace, r, leader);
    if FromCache(d) {
      var h := Run(d.trace);
      var n: nat := |h.served| - 1;
      ServedIsAnswered(d.trace, n);
      var i: nat :| Explains(h, h.served[n], i);
      assert ServesThen(h.served[n], r.query, Times(r), d.result.value);
      assert GivesBack(h, |Run(trace).served|, r.query, Times(r), d.result.value, i);
    }
  }

  lemma UntamperedAnd(trace: seq<Action>, more: seq<Action>)
    ensures Untampered(trace + more) <==> Untampered(trace) && Untampered(more)
  {
    forall i | 0 <= i < |more| && Untampered(trace + more) ensures !more[i].Tamper? {
      assert (trace + more)[|trace| + i] == more[i];
    }
    forall i | 0 <= i < |trace| && Untampered(trace + more) ensures !trace[i].Tamper? {
      assert (trace + more)[i] == trace[i];
    }
  }

  lemma LookupExtends(trace: seq<Action>, q: Query, now: int, between: seq<Action>)
    ensures trace <= Lookup(trace, q, now, between)
    ensures Untampered(trace) && Untampered(between) ==> Untampered(Lookup(trace, q, now, between))
  {
    hide Run, Found;
    UntamperedAnd(trace, [Look(q, now)]);
    UntamperedAnd(trace + [Look(q, now)], between);
    UntamperedAnd(trace + [Look(q, now)] + between, [Delete(q.Place())]);
  }

  lemma LoadExtends(trace: seq<Action>, q: Query, loader: Loader, now: int, world: World, point: nat,
                    code: Option<string>)
    ensures trace <= Load(trace, q, loader, now, world, point, code).trace
    ensures Untampered(trace) && Untampered(world.backend(point)) && Untampered(world.backend(point + 1)) ==>
      Untampered(Load(trace, q, loader, now, world, point, code).trace)
  {
    hide Run;
    var asked := trace + world.backend(point);
    UntamperedAnd(trace, world.backend(point));
    if loader.Returns? {
      var answers := [Answers(LoaderAnswer(q.policy, q.key, loader.loaded, now))];
      UntamperedAnd(asked, answers);
      UntamperedAnd(asked + answers, world.backend(point + 1));
      UntamperedAnd(asked + answers + world.backend(point + 1), [Store(|Run(asked).answers|)]);
    }
  }

  /** A read tampers with nothing and rewrites nothing. */
  lemma ReadExtends(trace: seq<Action>, r: Request, leader: bool)
    requires Untampered(trace) && forall n :: Untampered(r.world.backend(n))
    ensures trace <= Read(trace, r, leader).trace && Untampered(Read(trace, r, leader).trace)
  {
    hide Run, Found, Fatal, Lookup, Load, Untampered;
    var q, w := r.query, r.world;
    UntamperedAnd(trace, w.backend(0));
    UntamperedAnd(Lookup(trace + w.backend(0), q, r.now, w.backend(1)), w.backend(4));
    LookupExtends(trace + w.backend(0), q, r.now, w.backend(1));
    var looked := Lookup(trace + w.backend(0), q, r.now, w.backend(1));
    LookupExtends(looked + w.backend(4), q, w.clock(0), w.backend(5));
    LoadExtends(looked, q, r.loader, r.now, w, 2, Code(trace + w.backend(0), None));
    LoadExtends(Lookup(looked + w.backend(4), q, w.clock(0), w.backend(5)), q, r.loader, w.clock(1), w, 6,
                Code(looked + w.backend(4), Code(trace + w.backend(0), None)));
  }

  // --------------------------------------------------- what a miss leaves

  function LoadedAt(r: Request, leader: bool): int
  {
    if leader then r.now else r.world.clock(1)
  }

  /** The key holds what was just stored. */
  ghost predicate Holds(h: History, answer: Answer)
  {
    && h.available && answer.ttl.Some? && answer.Proper() && answer.Place() in h.entries
    && h.entries[answer.Place()] == VersionedEntry(answer.Stored(), |h.written|)
  }

  lemma AnswersStay(trace: seq<Action>, more: seq<Action>, answer: Answer)
    requires answer.Proper() && !answer.given
    ensures var n := |Run(trace).answers|;
      var h := Run(trace + [Answers(answer)] + more);
      n < |h.answers| && h.answers[n] == answer
  {
    hide Run;
    RunThen(trace, Answers(answer));
    RunGrows(trace + [Answers(answer)], more);
  }

  lemma LoadHolds(trace: seq<Action>, q: Query, loader: Loader, now: int, world: World, point: nat,
                  code: Option<string>)
    requires var d := Load(trace, q, loader, now, world, point, code); d.result.Ok? && d.result.value.outcome.Miss?
    requires LoaderAnswer(q.policy, q.key, loader.loaded, now).ttl.Some?
    ensures Holds(Run(Load(trace, q, loader, now, world, point, code).trace),
                  LoaderAnswer(q.policy, q.key, loader.loaded, now))
  {
    hide Run;
    var answer := LoaderAnswer(q.policy, q.key, loader.loaded, now);
    var asked := trace + world.backend(point);
    AnswersStay(asked, world.backend(point + 1), answer);
    RunThen(asked + [Answers(answer)] + world.backend(point + 1), Store(|Run(asked).answers|));
  }

  /** An entry of this policy's form, created now, to expire after this long. */
  ghost predicate Keeps(entry: Entry, policy: Policy, value: Json, version: Version, now: int, ttl: int)
  {
    && entry.value == value && entry.version == version && entry.serializerId == policy.serializerId
    && entry.schemaFingerprint == policy.schemaFingerprint
    && entry.createdAt == now && entry.expiresAt == Some(now + ttl)
  }

  /**
   * What a load leaves in the backend, if it is up when it comes to storing: a value for the policy's default time, an
   * absence for its negative time; an absence without a negative time, and anything in an outage, leaves no trace.
   */
  lemma LoadKeeps(trace: seq<Action>, q: Query, loader: Loader, now: int, world: World, point: nat,
                  code: Option<string>)
    requires loader.Works()
    ensures var answered := [Answers(LoaderAnswer(q.policy, q.key, loader.loaded, now))];
      var asked := Run(trace + world.backend(point) + answered);
      var storing := Run(trace + world.backend(point) + answered + world.backend(point + 1));
      var h := Run(Load(trace, q, loader, now, world, point, code).trace);
      match loader.loaded
      case Some(found) =>
        if storing.available
        then q.Place() in h.entries && Keeps(h.entries[q.Place()].entry, q.policy, Tagged(Encode(found.value)),
                                             found.version, now, q.policy.defaultTtl)
        else h.entries == storing.entries
      case None =>
        match q.policy.negativeTtl
        case Some(ttl) =>
          if storing.available
          then q.Place() in h.entries && Keeps(h.entries[q.Place()].entry, q.policy, NEGATIVE, NoVersion, now, ttl)
          else h.entries == storing.entries
        case None => h == asked && h.entries == Run(trace + world.backend(point)).entries
  {
    hide Run;
    var answer := LoaderAnswer(q.policy, q.key, loader.loaded, now);
    var asked := trace + world.backend(point);
    RunThen(asked, Answers(answer));
    AnswersStay(asked, world.backend(point + 1), answer);
    RunThen(asked + [Answers(answer)] + world.backend(point + 1), Store(|Run(asked).answers|));
  }

  /** After a miss the backend holds what the loader answered, if the policy stores it, for the time the policy says. */
  lemma MissHolds(trace: seq<Action>, r: Request, leader: bool)
    requires var d := Read(trace, r, leader); d.result.Ok? && d.result.value.outcome.Miss?
    requires r.loader.Returns? && (r.loader.loaded.Some? || r.query.policy.negativeTtl.Some?)
    ensures Holds(Run(Read(trace, r, leader).trace),
                  LoaderAnswer(r.query.policy, r.query.key, r.loader.loaded, LoadedAt(r, leader)))
    ensures var h, at := Run(Read(trace, r, leader).trace), LoadedAt(r, leader);
      && r.query.Place() in h.entries
      && var entry := h.entries[r.query.Place()].entry;
        match r.loader.loaded
        case Some(found) =>
          Encodable(found.value) && Keeps(entry, r.query.policy, Tagged(Encode(found.value)), found.version, at,
                                          r.query.policy.defaultTtl)
        case None => Keeps(entry, r.query.policy, NEGATIVE, NoVersion, at, r.query.policy.negativeTtl.value)
  {
    hide Run, Finds, Lookup, Load;
    var q, w := r.query, r.world;
    var started := trace + w.backend(0);
    var looked := Lookup(started, q, r.now, w.backend(1));
    if leader {
      LoadHolds(looked, q, r.loader, r.now, w, 2, Code(started, None));
    } else {
      var waited := looked + w.backend(4);
      LoadHolds(Lookup(waited, q, w.clock(0), w.backend(5)), q, r.loader, w.clock(1), w, 6,
                Code(waited, Code(started, None)));
    }
  }

  function VersionOf(loaded: Option<Loaded>): Version
  {
    if loaded.Some? then loaded.value.version else NoVersion
  }

  /** As long as the key still shows the version of this store, the answer is unexpired and it is good enough. */
  ghost predicate StillServes(trace: seq<Action>, answer: Answer, later: seq<Action>, next: Request)
  {
    && Run(later).available && HasVersion(Run(later), answer.Place(), |Run(trace).written|)
    && answer.ttl.Some? && next.query.policy == answer.policy && next.query.key == answer.key
    && next.now < answer.at + answer.ttl.value && next.now <= answer.at + answer.policy.maximumStaleness
    && VersionValid(answer.policy, next.query.comparator, VersionOf(answer.loaded), next.query.required)
  }

  /** Served from the cache: this value as a hit, or this absence as a negative hit. */
  ghost predicate IsServed(d: Done, loaded: Option<Loaded>)
  {
    && d.result.Ok? && d.result.value.version == VersionOf(loaded) && d.result.value.cacheError.None?
    && match loaded
       case Some(given) =>
         && d.result.value.outcome.Hit? && d.result.value.value.Some?
         && SameData(d.result.value.value.value, given.value)
       case None => d.result.value.outcome.NegativeHit? && d.result.value.value.None?
  }

  /** A stored answer, or absence, is served to every reader, whatever happened in between that left it in place. */
  lemma HeldIsServed(trace: seq<Action>, answer: Answer, more: seq<Action>, next: Request, leads: bool)
    requires Holds(Run(trace), answer)
    requires StillServes(trace, answer, trace + more + next.world.backend(0), next)
    ensures IsServed(Read(trace + more, next, leads), answer.loaded)
  {
    hide Run, Lookup, Join;
    var started := trace + more + next.world.backend(0);
    assert trace + (more + next.world.backend(0)) == started;
    VersionNamesEntry(trace, more + next.world.backend(0), answer.Place());
    assert Run(started).entries[answer.Place()].entry == answer.Stored();
    if answer.loaded.Some? {
      TaggingIsSafe(Encode(answer.loaded.value.value));
      DecodesBack(answer.loaded.value.value);
    }
  }

  /** What one reader has loaded, or found absent, the next is served. */
  lemma MissIsServedNext(trace: seq<Action>, r: Request, leader: bool, more: seq<Action>, next: Request, leads: bool)
    requires var d := Read(trace, r, leader); r.loader.Returns? && d.result.Ok? && d.result.value.outcome.Miss?
    requires var first := Read(trace, r, leader).trace;
      StillServes(first, LoaderAnswer(r.query.policy, r.query.key, r.loader.loaded, LoadedAt(r, leader)),
                  first + more + next.world.backend(0), next)
    ensures IsServed(Read(Read(trace, r, leader).trace + more, next, leads), r.loader.loaded)
  {
    hide Run, Read, Holds, IsServed;
    var answer := LoaderAnswer(r.query.policy, r.query.key, r.loader.loaded, LoadedAt(r, leader));
    MissHolds(trace, r, leader);
    HeldIsServed(Read(trace, r, leader).trace, answer, more, next, leads);
  }

  /** What `put_if_absent` or `compare_and_set` has stored is held, so every reader is served it too. */
  lemma PutHolds(trace: seq<Action>, answer: Answer, expected: int)
    requires Puttable(answer) && Run(trace).available
    ensures answer.Place() !in Run(trace).entries ==> Holds(Run(trace + [PutIfAbsent(answer)]), answer)
    ensures HasVersion(Run(trace), answer.Place(), expected) ==>
      Holds(Run(trace + [CompareAndSet(answer, expected)]), answer)
  {
    hide Run;
    RunThen(trace, PutIfAbsent(answer));
    RunThen(trace, CompareAndSet(answer, expected));
  }

  // ----------------------------------------------------- without outages

  ghost predicate Calm(actions: seq<Action>)
  {
    forall i :: 0 <= i < |actions| ==> (actions[i].SetAvailable? ==> actions[i].available)
  }

  lemma {:induction false} CalmKeepsAvailable(trace: seq<Action>, more: seq<Action>)
    requires Run(trace).available && Calm(more)
    ensures Run(trace + more).available
  {
    hide Finds, Serve;
    if more == [] {
      assert trace + more == trace;
    } else {
      var n := |more| - 1;
      CalmKeepsAvailable(trace, more[..n]);
      assert trace + more == (trace + more[..n]) + [more[n]];
      RunThen(trace + more[..n], more[n]);
    }
  }

  lemma CalmLookup(trace: seq<Action>, q: Query, now: int, between: seq<Action>)
    requires Run(trace).available && Calm(between)
    ensures Run(Lookup(trace, q, now, between)).available
  {
    hide Run, Finds;
    CalmKeepsAvailable(trace, [Look(q, now)]);
    CalmKeepsAvailable(trace + [Look(q, now)], between);
    CalmKeepsAvailable(trace + [Look(q, now)] + between, [Delete(q.Place())]);
  }

  lemma CalmLoad(trace: seq<Action>, q: Query, loader: Loader, now: int, world: World, point: nat)
    requires Run(trace).available && Calm(world.backend(point)) && Calm(world.backend(point + 1))
    ensures var d := Load(trace, q, loader, now, world, point, None);
      d.result == if loader.Works() then Ok(Fresh(loader, None)) else Err(Failure(loader))
  {
    hide Run;
    var asked := trace + world.backend(point);
    CalmKeepsAvailable(trace, world.backend(point));
    if loader.Returns? {
      var answers := [Answers(LoaderAnswer(q.policy, q.key, loader.loaded, now))];
      CalmKeepsAvailable(asked, answers);
      CalmKeepsAvailable(asked + answers, world.backend(point + 1));
    }
  }

  /** While the backend stays up, a read is a hit or a plain miss and fails only if its loader does. */
  lemma CalmRead(trace: seq<Action>, r: Request, leader: bool)
    requires Run(trace).available && forall n :: Calm(r.world.backend(n))
    ensures var d := Read(trace, r, leader);
      || FromCache(d)
      || d.result == if r.loader.Works() then Ok(Fresh(r.loader, None)) else Err(Failure(r.loader))
  {
    hide Run, Finds, Lookup, Load, Calm;
    var q, w := r.query, r.world;
    var started := trace + w.backend(0);
    CalmKeepsAvailable(trace, w.backend(0));
    var looked := Lookup(started, q, r.now, w.backend(1));
    CalmLookup(started, q, r.now, w.backend(1));
    CalmLoad(looked, q, r.loader, r.now, w, 2);
    var waited := looked + w.backend(4);
    CalmKeepsAvailable(looked, w.backend(4));
    CalmLookup(waited, q, w.clock(0), w.backend(5));
    CalmLoad(Lookup(waited, q, w.clock(0), w.backend(5)), q, r.loader, w.clock(1), w, 6);
  }
}
