/** The versioned cache store. Its `trace` says what was done to it, and what loaders answered, so far. */
module CacheBackend {
  import opened Wrappers
  import opened CanonicalJson
  import opened CacheModel
  import opened CacheHistory

  class InMemoryCacheBackend {
    var entries: map<StoreKey, VersionedEntry>
    var revision: nat
    var available: bool
    /** What loaders have answered and callers have put; an answer waits with its reader until it is stored. */
    var answers: seq<Answer>
    ghost var trace: seq<Action>

    constructor ()
      ensures Valid() && entries == map[] && available && trace == []
    {
      entries, revision, available, answers, trace := map[], 0, true, [], [];
    }

    ghost function History(): History
      reads this
    {
      Run(trace)
    }

    ghost predicate Valid()
      reads this
    {
      Shows(History())
    }

    ghost predicate Shows(h: History)
      reads this
    {
      h.entries == entries && |h.written| == revision && h.available == available && h.answers == answers
    }

    ghost method Note(action: Action)
      requires Shows(Next(History(), action))
      modifies this`trace
      ensures Valid() && trace == old(trace) + [action]
    {
      hide Next, Run;
      RunThen(trace, action);
      trace := trace + [action];
    }

    method Get(place: StoreKey) returns (ok: bool, found: Option<VersionedEntry>)
      ensures ok <==> available
      ensures !ok ==> found.None?
      ensures ok ==> found == if place in entries then Some(entries[place]) else None
    {
      if !available { return false, None; }
      ok, found := true, if place in entries then Some(entries[place]) else None;
    }

    /** A loader has answered. */
    method Answered(answer: Answer)
      requires Valid()
      modifies this`answers, this`trace
      ensures Valid() && trace == old(trace) + [Answers(answer)]
    {
      if answer.Proper() && !answer.given { answers := answers + [answer]; }
      Note(Answers(answer));
    }

    /** A lookup reads, and serves what it finds servable. */
    ghost method Looked(query: Query, now: int)
      requires Valid()
      modifies this`trace
      ensures Valid() && trace == old(trace) + [Look(query, now)]
    {
      Note(Look(query, now));
    }

    /** Store a logged answer of a loader. */
    method Put(entry: Entry, resource: string, ghost logged: nat) returns (ok: bool, version: nat)
      requires Valid() && logged < |answers| && answers[logged].ttl.Some? && answers[logged].Proper()
      requires entry == answers[logged].Stored() && resource == answers[logged].policy.cacheResource
      modifies this
      ensures Valid() && trace == old(trace) + [Store(logged)] && (ok <==> old(available))
      ensures ok ==> version == revision == old(revision) + 1
      ensures entries == if ok
        then old(entries)[KeyOf(resource, entry.key) := VersionedEntry(entry, version)] else old(entries)
    {
      if available {
        revision := revision + 1;
        ok, version := true, revision;
        entries := entries[KeyOf(resource, entry.key) := VersionedEntry(entry, revision)];
      } else {
        ok, version := false, 0;
      }
      Note(Store(logged));
    }

    method PutIfAbsent(entry: Entry, resource: string, answer: Answer) returns (ok: bool, stored: bool)
      requires Valid() && Puttable(answer) && entry == answer.Stored() && resource == answer.policy.cacheResource
      modifies this
      ensures Valid() && trace == old(trace) + [Action.PutIfAbsent(answer)] && (ok <==> old(available))
      ensures stored <==> old(available) && answer.Place() !in old(entries)
      ensures entries == if stored
        then old(entries)[answer.Place() := VersionedEntry(entry, old(revision) + 1)] else old(entries)
    {
      ok, stored := available, available && KeyOf(resource, entry.key) !in entries;
      if stored {
        answers := answers + [answer];
        revision := revision + 1;
        entries := entries[KeyOf(resource, entry.key) := VersionedEntry(entry, revision)];
      }
      Note(Action.PutIfAbsent(answer));
    }

    /** Replace an entry only if it still is the one stored under the expected version. */
    method CompareAndSet(entry: Entry, resource: string, expected: int, answer: Answer)
      returns (ok: bool, stored: bool)
      requires Valid() && Puttable(answer) && entry == answer.Stored() && resource == answer.policy.cacheResource
      modifies this
      ensures Valid() && trace == old(trace) + [Action.CompareAndSet(answer, expected)] && (ok <==> old(available))
      ensures stored <==> old(available) && HasVersion(old(History()), answer.Place(), expected)
      ensures entries == if stored
        then old(entries)[answer.Place() := VersionedEntry(entry, old(revision) + 1)] else old(entries)
    {
      ok, stored := available, false;
      var key := KeyOf(resource, entry.key);
      if available && key in entries && entries[key].version == expected {
        stored := true;
        answers := answers + [answer];
        revision := revision + 1;
        entries := entries[key := VersionedEntry(entry, revision)];
      }
      Note(Action.CompareAndSet(answer, expected));
    }

    method Delete(place: StoreKey) returns (ok: bool, removed: bool)
      requires Valid()
      modifies this`entries, this`trace
      ensures Valid() && trace == old(trace) + [Action.Delete(place)] && (ok <==> available)
      ensures removed <==> available && place in old(entries)
      ensures entries == if ok then old(entries) - {place} else old(entries)
    {
      ok, removed := available, available && place in entries;
      if available { entries := entries - {place}; }
      Note(Action.Delete(place));
    }

    method Invalidate(resource: string) returns (ok: bool, count: nat)
      requires Valid()
      modifies this`entries, this`trace
      ensures Valid() && trace == old(trace) + [Action.Invalidate(resource)] && (ok <==> available)
      ensures ok ==> entries == old(entries) - (set k | k in old(entries) && k.resource == resource)
      ensures ok ==> count == |set k | k in old(entries) && k.resource == resource|
      ensures !ok ==> entries == old(entries)
    {
      ok, count := available, 0;
      if available {
        var keys := set k | k in entries && k.resource == resource;
        count := |keys|;
        entries := entries - keys;
      }
      Note(Action.Invalidate(resource));
    }

    /**
     * Everybody else: other readers and their loaders, callers of the explicit operations, outages, losses, intruders.
     */
    method Perform(action: Action)
      requires Valid()
      modifies this
      ensures Valid() && trace == old(trace) + [action]
    {
      match action {
        case SetAvailable(value) =>
          available := value;
          Note(action);
        case Lose(places) =>
          entries := entries - places;
          Note(action);
        case Tamper(resource, entry) =>
          revision := revision + 1;
          entries := entries[KeyOf(resource, entry.key) := VersionedEntry(entry, revision)];
          Note(action);
        case Delete(place) => var _, _ := Delete(place);
        case Invalidate(resource) => var _, _ := Invalidate(resource);
        case Look(query, now) => Looked(query, now);
        case Answers(answer) => Answered(answer);
        case Store(logged) =>
          if logged < |answers| && answers[logged].ttl.Some? && answers[logged].Proper() {
            var _, _ := Put(answers[logged].Stored(), answers[logged].policy.cacheResource, logged);
          } else {
            Note(action);
          }
        case PutIfAbsent(answer) =>
          if Puttable(answer) {
            var _, _ := PutIfAbsent(answer.Stored(), answer.policy.cacheResource, answer);
          } else {
            Note(action);
          }
        case CompareAndSet(answer, expected) =>
          if Puttable(answer) {
            var _, _ := CompareAndSet(answer.Stored(), answer.policy.cacheResource, expected, answer);
          } else {
            Note(action);
          }
      }
    }

    method PerformAll(actions: seq<Action>)
      requires Valid()
      modifies this
      ensures Valid() && trace == old(trace) + actions
    {
      for i := 0 to |actions|
        invariant Valid() && trace == old(trace) + actions[..i]
      {
        assert actions[..i + 1] == actions[..i] + [actions[i]];
        Perform(actions[i]);
      }
      assert actions[..|actions|] == actions;
    }
  }
}
