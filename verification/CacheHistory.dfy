/** Every run of a cache: loaders that answer, puts, lookups, deletions, outages, lost and foreign entries. */
module CacheHistory {
  import opened Wrappers
  import opened CanonicalJson
  import opened CacheModel
  import JsonText

  /** What a loader answered or a caller put (`given`) for a key, and for how long it is to be stored, if at all. */
  datatype Answer = Answer(policy: Policy, key: Json, loaded: Option<Loaded>, at: int, ttl: Option<int>, given: bool)
  {
    /** It can be encoded, and is kept as the policy says or, if it was put, for a time within the policy's bound. */
    predicate Proper()
    {
      && (loaded.Some? ==> Encodable(loaded.value.value))
      && (given ==> loaded.Some? && ttl.Some? && 0 < ttl.value <= policy.maximumTtl)
      && (!given && loaded.Some? ==> ttl == Some(policy.defaultTtl))
      && (!given && loaded.None? ==> ttl == policy.negativeTtl)
    }

    function Place(): StoreKey { KeyOf(policy.cacheResource, key) }

    function Stored(): Entry
      requires ttl.Some? && Proper()
    {
      if loaded.Some? then ValueEntry(policy, key, loaded.value, at, ttl.value)
      else NegativeEntry(policy, key, at, ttl.value)
    }
  }

  function LoaderAnswer(policy: Policy, key: Json, loaded: Option<Loaded>, at: int): Answer
  {
    Answer(policy, key, loaded, at, if loaded.Some? then Some(policy.defaultTtl) else policy.negativeTtl, false)
  }

  function Given(policy: Policy, key: Json, value: Loaded, at: int, ttl: int): Answer
  {
    Answer(policy, key, Some(value), at, Some(ttl), true)
  }

  /** A write stores a logged answer, or something no coordinator stored. */
  datatype Write = Own(answer: nat) | Foreign(resource: string, entry: Entry)

  datatype Query = Query(policy: Policy, comparator: Comparator, key: Json, required: Version)
  {
    function Place(): StoreKey { KeyOf(policy.cacheResource, key) }
  }

  /** An entry served, and how many answers had been logged by then. */
  datatype Served = Served(query: Query, now: int, read: CacheRead, version: nat, answered: nat)

  datatype History = History(entries: map<StoreKey, VersionedEntry>, available: bool, written: seq<Write>,
                             answers: seq<Answer>, served: seq<Served>)

  const EMPTY: History := History(map[], true, [], [], [])

  /** One atomic step of any coordinator, any caller or the backend itself. */
  datatype Action = SetAvailable(available: bool)
                  | Lose(places: set<StoreKey>)
                  | Tamper(resource: string, entry: Entry)
                  | Delete(place: StoreKey)
                  | Invalidate(resource: string)
                  | Look(query: Query, now: int)
                  | Answers(answer: Answer)
                  | Store(logged: nat)
                  | PutIfAbsent(answer: Answer)
                  | CompareAndSet(answer: Answer, expected: int)

  /** What a lookup serves, if anything. */
  function Finds(h: History, q: Query, now: int): (found: Option<VersionedEntry>)
    ensures found.Some? ==> found.value.entry.value == NEGATIVE || Untagged(found.value.entry.value).Some?
  {
    if h.available && q.Place() in h.entries
      && Servable(q.policy, q.comparator, h.entries[q.Place()].entry, q.required, now)
    then Some(h.entries[q.Place()])
    else None
  }

  function Written(h: History, place: StoreKey, entry: Entry, write: Write): History
  {
    h.(entries := h.entries[place := VersionedEntry(entry, |h.written| + 1)], written := h.written + [write])
  }

  function StoredAnswer(h: History, logged: nat): History
    requires logged < |h.answers| && h.answers[logged].ttl.Some? && h.answers[logged].Proper()
  {
    Written(h, h.answers[logged].Place(), h.answers[logged].Stored(), Own(logged))
  }

  function Logged(h: History, answer: Answer): History
  {
    h.(answers := h.answers + [answer])
  }

  /** What `put_if_absent` and `compare_and_set` let through. */
  predicate Puttable(answer: Answer)
  {
    answer.Proper() && answer.given
  }

  predicate HasVersion(h: History, place: StoreKey, version: int)
  {
    place in h.entries && h.entries[place].version == version
  }

  predicate Storable(h: History, logged: nat)
  {
    h.available && logged < |h.answers| && h.answers[logged].ttl.Some? && h.answers[logged].Proper()
  }

  function Next(h: History, action: Action): History
  {
    match action
    case SetAvailable(available) => h.(available := available)
    case Lose(places) => h.(entries := h.entries - places)
    case Tamper(resource, entry) => Written(h, KeyOf(resource, entry.key), entry, Foreign(resource, entry))
    case Delete(place) => if h.available then h.(entries := h.entries - {place}) else h
    case Invalidate(resource) =>
      if h.available then h.(entries := h.entries - (set k | k in h.entries && k.resource == resource)) else h
    case Look(query, now) =>
      var found := Finds(h, query, now);
      if found.None? then h
      else
        var read := Serve(found.value.entry);
        h.(served := h.served + [Served(query, now, read, found.value.version, |h.answers|)])
    case Answers(answer) => if answer.Proper() && !answer.given then Logged(h, answer) else h
    case Store(logged) => if Storable(h, logged) then StoredAnswer(h, logged) else h
    case PutIfAbsent(answer) =>
      if h.available && Puttable(answer) && answer.Place() !in h.entries
      then StoredAnswer(Logged(h, answer), |h.answers|)
      else h
    case CompareAndSet(answer, expected) =>
      if h.available && Puttable(answer) && HasVersion(h, answer.Place(), expected)
      then StoredAnswer(Logged(h, answer), |h.answers|)
      else h
  }

  function Run(actions: seq<Action>): History
  {
    if actions == [] then EMPTY else Next(Run(actions[..|actions| - 1]), actions[|actions| - 1])
  }

  lemma RunThen(actions: seq<Action>, action: Action)
    ensures Run(actions + [action]) == Next(Run(actions), action)
  {
    assert (actions + [action])[..|actions|] == actions;
  }

  // ---------------------------------------------------------- invariant

  /** An entry is still exactly what the write of its version stored. */
  ghost predicate Traced(h: History, place: StoreKey)
    requires place in h.entries
  {
    var version := h.entries[place].version;
    1 <= version <= |h.written| && Fits(h.answers, h.written[version - 1], place, h.entries[place].entry)
  }

  ghost predicate Fits(answers: seq<Answer>, write: Write, place: StoreKey, entry: Entry)
  {
    match write
    case Own(i) =>
      && i < |answers| && answers[i].ttl.Some? && answers[i].Proper()
      && place == answers[i].Place() && entry == answers[i].Stored()
    case Foreign(resource, e) => place == KeyOf(resource, e.key) && entry == e
  }

  /** An answer is still kept at this time: a loaded value or absence as its policy says, a put as its caller said. */
  ghost predicate KeptAt(a: Answer, now: int)
  {
    && (a.given ==> a.ttl.Some? && a.ttl.value <= a.policy.maximumTtl && now < a.at + a.ttl.value)
    && (!a.given && a.loaded.Some? ==> now < a.at + a.policy.defaultTtl)
    && (!a.given && a.loaded.None? ==> a.policy.negativeTtl.Some? && now < a.at + a.policy.negativeTtl.value)
  }

  /** Answer and query are of the same cache, in the same form, for the same key. */
  ghost predicate SameCache(a: Answer, q: Query)
  {
    && a.policy.cacheResource == q.policy.cacheResource && a.policy.serializerId == q.policy.serializerId
    && a.policy.schemaFingerprint == q.policy.schemaFingerprint
    && (WellFormed(a.key) && WellFormed(q.key) ==> Same(a.key, q.key))
  }

  /**
   * The law of a read: what was served is an answer logged earlier for the same key, unexpired, within the staleness
   * bound and of a version that will do. A hit has the value of that answer, a negative hit comes from an absence.
   */
  ghost predicate ServedFrom(s: Served, a: Answer)
  {
    && SameCache(a, s.query) && s.read.cacheError.None?
    && KeptAt(a, s.now) && s.now <= a.at + s.query.policy.maximumStaleness
    && (a.loaded.Some? ==>
          && s.read.outcome.Hit? && s.read.value.Some? && SameData(s.read.value.value, a.loaded.value.value)
          && s.read.version == a.loaded.value.version)
    && (a.loaded.None? ==> s.read.outcome.NegativeHit? && s.read.value.None? && s.read.version.NoVersion?)
    && VersionValid(s.query.policy, s.query.comparator, s.read.version, s.query.required)
  }

  ghost predicate Transparent(h: History, s: Served)
  {
    && 1 <= s.version <= |h.written| && s.answered <= |h.answers|
    && var write := h.written[s.version - 1];
      write.Own? ==> write.answer < s.answered && ServedFrom(s, h.answers[write.answer])
  }

  ghost predicate Inv(h: History)
  {
    && (forall k :: k in h.entries ==> Traced(h, k))
    && (forall i :: 0 <= i < |h.answers| ==> h.answers[i].Proper())
    && (forall i :: 0 <= i < |h.served| ==> Transparent(h, h.served[i]))
  }

  /**
   * A servable entry that stores an answer gives that answer back: a value never reads as an absence, nor the reverse.
   */
  lemma ServesItsAnswer(q: Query, now: int, a: Answer, version: nat, answered: nat)
    requires a.Proper() && a.ttl.Some? && a.Place() == q.Place()
    requires Servable(q.policy, q.comparator, a.Stored(), q.required, now)
    ensures ServedFrom(Served(q, now, Serve(a.Stored()), version, answered), a)
  {
    if WellFormed(a.key) && WellFormed(q.key) { JsonText.CanonicalTextExactly(a.key, q.key); }
    if a.loaded.Some? {
      TaggingIsSafe(Encode(a.loaded.value.value));
      DecodesBack(a.loaded.value.value);
    }
  }

  lemma LookKeeps(h: History, q: Query, now: int)
    requires Inv(h)
    ensures Inv(Next(h, Look(q, now)))
  {
    hide Traced, Transparent, Finds, Servable, Serve;
    var n, found := Next(h, Look(q, now)), Finds(h, q, now);
    if found.Some? {
      FoundIsTransparent(h, q, now);
      ServedStays(h, n);
    }
    forall k | k in n.entries ensures Traced(n, k) { EntriesStay(h, n, k); }
  }

  lemma FoundIsTransparent(h: History, q: Query, now: int)
    requires Inv(h) && Finds(h, q, now).Some?
    ensures var found := Finds(h, q, now).value;
      Transparent(Next(h, Look(q, now)), Served(q, now, Serve(found.entry), found.version, |h.answers|))
  {
    hide Servable, Serve, ServedFrom, WellFormed, JsonText.CanonicalText;
    var found := Finds(h, q, now).value;
    assert Traced(h, q.Place());
    assert h.answers == Next(h, Look(q, now)).answers && h.written == Next(h, Look(q, now)).written;
    var write := h.written[found.version - 1];
    if write.Own? { ServesItsAnswer(q, now, h.answers[write.answer], found.version, |h.answers|); }
  }

  ghost predicate Extends(h: History, n: History)
  {
    h.written <= n.written && h.answers <= n.answers && h.served <= n.served
  }

  lemma ServedStays(h: History, n: History)
    requires Inv(h) && Extends(h, n)
    ensures forall i :: 0 <= i < |h.served| ==> Transparent(n, n.served[i])
  {
    hide ServedFrom;
    forall i | 0 <= i < |h.served| ensures Transparent(n, n.served[i]) {
      assert Transparent(h, h.served[i]);
    }
  }

  lemma EntriesStay(h: History, n: History, k: StoreKey)
    requires Inv(h) && Extends(h, n) && k in h.entries && k in n.entries && n.entries[k] == h.entries[k]
    ensures Traced(n, k)
  {
    hide JsonText.CanonicalText;
    assert Traced(h, k);
  }

  lemma WriteKeeps(h: History, place: StoreKey, entry: Entry, write: Write)
    requires Inv(h) && Fits(h.answers, write, place, entry)
    ensures Inv(Written(h, place, entry, write)) && Extends(h, Written(h, place, entry, write))
  {
    hide Fits, Transparent;
    var n := Written(h, place, entry, write);
    ServedStays(h, n);
    forall k | k in n.entries ensures Traced(n, k) {
      if k != place { EntriesStay(h, n, k); }
    }
  }

  lemma LogKeeps(h: History, answer: Answer)
    requires Inv(h) && answer.Proper()
    ensures Inv(Logged(h, answer)) && Extends(h, Logged(h, answer))
  {
    hide Fits, Transparent;
    var n := Logged(h, answer);
    ServedStays(h, n);
    forall k | k in n.entries ensures Traced(n, k) {
      EntriesStay(h, n, k);
    }
  }

  lemma NextExtends(h: History, action: Action)
    ensures Extends(h, Next(h, action))
  {
    hide Finds, Serve, Puttable, JsonText.CanonicalText;
  }

  lemma InvStep(h: History, action: Action)
    requires Inv(h)
    ensures Inv(Next(h, action))
  {
    hide Fits, Transparent, Finds, Serve, JsonText.CanonicalText;
    var n := Next(h, action);
    NextExtends(h, action);
    match action {
      case Look(q, now) => LookKeeps(h, q, now);
      case Tamper(resource, entry) =>
        TamperFits(h, resource, entry);
        WriteKeeps(h, KeyOf(resource, entry.key), entry, Foreign(resource, entry));
      case Answers(answer) => if answer.Proper() { LogKeeps(h, answer); }
      case Store(logged) => if Storable(h, logged) { StoreKeeps(h, logged); }
      case PutIfAbsent(answer) => if n != h { LogKeeps(h, answer); StoreKeeps(Logged(h, answer), |h.answers|); }
      case CompareAndSet(answer, _) => if n != h { LogKeeps(h, answer); StoreKeeps(Logged(h, answer), |h.answers|); }
      case _ =>
        ServedStays(h, n);
        forall k | k in n.entries ensures Traced(n, k) { EntriesStay(h, n, k); }
    }
  }

  lemma TamperFits(h: History, resource: string, entry: Entry)
    ensures Fits(h.answers, Foreign(resource, entry), KeyOf(resource, entry.key), entry)
  {
  }

  lemma StoreKeeps(h: History, logged: nat)
    requires Inv(h) && logged < |h.answers| && h.answers[logged].ttl.Some? && h.answers[logged].Proper()
    ensures Inv(StoredAnswer(h, logged))
  {
    WriteKeeps(h, h.answers[logged].Place(), h.answers[logged].Stored(), Own(logged));
  }

  // ------------------------------------------------------- over any run

  /** Every entry ever served, in any run, is explained by the write of its version and an earlier answer. */
  lemma {:induction false} AlwaysTransparent(actions: seq<Action>)
    ensures Inv(Run(actions))
  {
    hide Inv, Next;
    if actions != [] {
      AlwaysTransparent(actions[..|actions| - 1]);
      InvStep(Run(actions[..|actions| - 1]), actions[|actions| - 1]);
    } else {
      EmptyInv();
    }
  }

  lemma EmptyInv()
    ensures Inv(EMPTY)
  {
  }

  /** The run up to here is never rewritten by what follows. */
  lemma {:induction false} RunGrows(actions: seq<Action>, more: seq<Action>)
    ensures Extends(Run(actions), Run(actions + more))
  {
    hide Next;
    if more == [] {
      assert actions + more == actions;
    } else {
      var n := |more| - 1;
      RunGrows(actions, more[..n]);
      assert actions + more == (actions + more[..n]) + [more[n]];
      RunThen(actions + more[..n], more[n]);
      NextExtends(Run(actions + more[..n]), more[n]);
    }
  }

  /** A version names one entry for good: a key that still, or again, shows a version still holds the same entry. */
  lemma VersionNamesEntry(actions: seq<Action>, more: seq<Action>, place: StoreKey)
    requires place in Run(actions).entries && place in Run(actions + more).entries
    requires Run(actions).entries[place].version == Run(actions + more).entries[place].version
    ensures Run(actions).entries[place] == Run(actions + more).entries[place]
  {
    hide Run, Inv, Extends;
    AlwaysTransparent(actions);
    AlwaysTransparent(actions + more);
    RunGrows(actions, more);
    WriteNamesEntry(Run(actions), Run(actions + more), place);
  }

  lemma WriteNamesEntry(h: History, n: History, place: StoreKey)
    requires Inv(h) && Inv(n) && Extends(h, n) && place in h.entries && place in n.entries
    requires h.entries[place].version == n.entries[place].version
    ensures h.entries[place] == n.entries[place]
  {
    hide Transparent, JsonText.CanonicalText;
    assert Traced(h, place) && Traced(n, place);
  }

  ghost predicate Untampered(actions: seq<Action>)
  {
    forall i :: 0 <= i < |actions| ==> !actions[i].Tamper?
  }

  lemma {:induction false} WritesAreOwn(actions: seq<Action>)
    requires Untampered(actions)
    ensures forall i :: 0 <= i < |Run(actions).written| ==> Run(actions).written[i].Own?
  {
    if actions != [] { WritesAreOwn(actions[..|actions| - 1]); }
  }

  /** An answer logged before this read, for its key, that the read gives back. */
  ghost predicate Explains(h: History, s: Served, i: nat)
  {
    i < s.answered <= |h.answers| && ServedFrom(s, h.answers[i])
  }

  /**
   * Whatever loaders, callers, outages and losses come before: everything served is an earlier answer for the same key,
   * unexpired, fresh enough and of an acceptable version.
   */
  lemma ServedIsAnswered(actions: seq<Action>, n: nat)
    requires Untampered(actions) && n < |Run(actions).served|
    ensures exists i: nat :: Explains(Run(actions), Run(actions).served[n], i)
  {
    hide Run, ServedFrom, Traced;
    AlwaysTransparent(actions);
    WritesAreOwn(actions);
    var h := Run(actions);
    var s := h.served[n];
    assert Transparent(h, s);
    assert Explains(h, s, h.written[s.version - 1].answer);
  }
}
