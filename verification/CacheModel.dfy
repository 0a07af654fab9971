/** Cache policies, keys and entries, and when an entry may be served. */
module CacheModel {
  import opened Wrappers
  import opened Identifiers
  import opened CanonicalJson
  import JsonText
  import PythonValues

  datatype Version = NoVersion | IntVersion(number: int) | TextVersion(text: string)

  datatype Strategy = Unchecked | Exact | AtLeast

  datatype Policy = Policy(
    sourceResource: string, cacheResource: string, keyFields: seq<string>, serializerId: string,
    schemaFingerprint: string, defaultTtl: int, maximumTtl: int, maximumStaleness: int, negativeTtl: Option<int>,
    strategy: Strategy, enabled: bool, fallbackToAuthoritative: bool, maximumKeyBytes: nat)
  {
    /** What the constructor of a policy insists on. */
    predicate WellFormed()
    {
      && sourceResource != "" && cacheResource != "" && serializerId != "" && schemaFingerprint != "" && keyFields != []
      && Distinct(keyFields)
      && 0 < defaultTtl <= maximumTtl && 0 <= maximumStaleness && maximumKeyBytes >= 64
      && (negativeTtl.Some? ==> 0 < negativeTtl.value <= maximumTtl)
    }
  }

  datatype KeyError = MissingField | NotScalar | TooLong

  predicate Scalar(v: Json) { v.Bool? || v.Int? || v.Str? }

  function KeyParts(fields: seq<string>, identity: map<string, Json>): Result<Items, KeyError>
  {
    if fields == [] then Ok(NoItems)
    else if fields[0] !in identity then Err(MissingField)
    else
      var rest := KeyParts(fields[1..], identity);
      if rest.Err? then rest
      else if !Scalar(identity[fields[0]]) then Err(NotScalar)
      else Ok(Item(identity[fields[0]], rest.value))
  }

  /** The cache key of an identity: the source resource and the key fields, in the policy's order. */
  function Key(policy: Policy, identity: map<string, Json>): Result<Json, KeyError>
  {
    var parts := KeyParts(policy.keyFields, identity);
    if parts.Err? then Err(parts.error)
    else
      var key := Arr(Item(Str(policy.sourceResource), parts.value));
      if |JsonText.CanonicalText(key)| > policy.maximumKeyBytes then Err(TooLong) else Ok(key)
  }

  /** What a loader returns or a caller gives: any value, and its source version. */
  datatype Loaded = Loaded(value: PythonValues.Value, version: Version)

  datatype Entry = Entry(
    key: Json, value: Json, serializerId: string, schemaFingerprint: string, createdAt: int, expiresAt: Option<int>,
    version: Version)

  /** The digest of a key is taken as injective on its canonical text. */
  datatype StoreKey = StoreKey(resource: string, keyText: string)

  datatype VersionedEntry = VersionedEntry(entry: Entry, version: nat)

  function KeyOf(resource: string, key: Json): StoreKey
  {
    StoreKey(resource, JsonText.CanonicalText(key))
  }

  datatype Outcome = Hit | Miss | NegativeHit | Bypass

  datatype CacheRead = CacheRead(
    value: Option<PythonValues.Value>, version: Version, outcome: Outcome, cacheError: Option<string>)

  const NEGATIVE: Json := Obj(Field("$meridian.cache.negative", Bool(true), NoFields))

  const VALUE_FIELD := "$meridian.cache.value"

  /** A user value is always wrapped before it is stored. */
  function Tagged(value: Json): Json
  {
    Obj(Field(VALUE_FIELD, value, NoFields))
  }

  function Untagged(v: Json): Option<Json>
  {
    if v.Obj? && v.fields.Field? && v.fields.key == VALUE_FIELD && v.fields.rest.NoFields? then Some(v.fields.value)
    else None
  }

  /** The serializer can encode this value: it is made of what JSON can hold. */
  predicate Encodable(value: PythonValues.Value)
  {
    PythonValues.JsonValue(value).Ok?
  }

  function Encode(value: PythonValues.Value): Json
    requires Encodable(value)
  {
    PythonValues.JsonValue(value).value
  }

  /** The serializer's `decode`: parse the canonical text again into mappings and sequences. */
  function Decode(v: Json): Option<PythonValues.Value>
  {
    var parsed := JsonText.Parse(JsonText.CanonicalText(v));
    if parsed.None? then None else Some(PythonValues.Immutable(parsed.value))
  }

  /** Two values stand for the same JSON data, equal as dictionaries and lists. */
  ghost predicate SameData(v: PythonValues.Value, w: PythonValues.Value)
  {
    Encodable(v) && Encodable(w) && Same(Encode(v), Encode(w))
  }

  function ValueEntry(policy: Policy, key: Json, loaded: Loaded, now: int, ttl: int): Entry
    requires Encodable(loaded.value)
  {
    Entry(key, Tagged(Encode(loaded.value)), policy.serializerId, policy.schemaFingerprint, now, Some(now + ttl),
          loaded.version)
  }

  function NegativeEntry(policy: Policy, key: Json, now: int, ttl: int): Entry
  {
    Entry(key, NEGATIVE, policy.serializerId, policy.schemaFingerprint, now, Some(now + ttl), NoVersion)
  }

  type Comparator = Option<(Version, Version) -> bool>

  function VersionValid(policy: Policy, comparator: Comparator, cached: Version, required: Version): bool
  {
    if required.NoVersion? || policy.strategy.Unchecked? then true
    else if cached.NoVersion? then false
    else if policy.strategy.Exact? then cached == required
    else if comparator.Some? then comparator.value(cached, required)
    else if cached.IntVersion? && required.IntVersion? then cached.number >= required.number
    else cached == required
  }

  function ValidEntry(policy: Policy, comparator: Comparator, entry: Entry, required: Version, now: int): bool
  {
    if entry.serializerId != policy.serializerId || entry.schemaFingerprint != policy.schemaFingerprint then false
    else if entry.expiresAt.Some? && entry.expiresAt.value <= now then false
    else if entry.createdAt + policy.maximumStaleness < now then false
    else VersionValid(policy, comparator, entry.version, required)
  }

  /** Of this form, not expired, not stale, of a version that will do. */
  predicate Fresh(policy: Policy, comparator: Comparator, entry: Entry, required: Version, now: int)
  {
    && entry.serializerId == policy.serializerId && entry.schemaFingerprint == policy.schemaFingerprint
    && (entry.expiresAt.Some? ==> now < entry.expiresAt.value) && now <= entry.createdAt + policy.maximumStaleness
    && VersionValid(policy, comparator, entry.version, required)
  }

  /** The checks in the order they are made come to just that. */
  lemma ValidIsFresh(policy: Policy, comparator: Comparator, entry: Entry, required: Version, now: int)
    ensures ValidEntry(policy, comparator, entry, required, now) <==> Fresh(policy, comparator, entry, required, now)
  {
  }

  /** Neither stale nor corrupt: a lookup that finds this entry serves it. */
  predicate Servable(policy: Policy, comparator: Comparator, entry: Entry, required: Version, now: int)
  {
    && Fresh(policy, comparator, entry, required, now)
    && (entry.value == NEGATIVE || (Untagged(entry.value).Some? && Decode(Untagged(entry.value).value).Some?))
  }

  function Serve(entry: Entry): CacheRead
    requires entry.value == NEGATIVE || Untagged(entry.value).Some?
  {
    if entry.value == NEGATIVE then CacheRead(None, entry.version, NegativeHit, None)
    else CacheRead(Decode(Untagged(entry.value).value), entry.version, Hit, None)
  }

  /** Which versions will do, case by case. */
  lemma VersionExactly(policy: Policy, comparator: Comparator, cached: Version, required: Version)
    ensures required.NoVersion? || policy.strategy.Unchecked? ==> VersionValid(policy, comparator, cached, required)
    ensures !required.NoVersion? && policy.strategy.Exact? ==>
      (VersionValid(policy, comparator, cached, required) <==> cached == required)
    ensures !required.NoVersion? && policy.strategy.AtLeast? ==>
      (VersionValid(policy, comparator, cached, required) <==> NotOlder(comparator, cached, required))
  {
  }

  /** The comparator decides if there is one; else integers are compared and everything else must be equal. */
  ghost predicate NotOlder(comparator: Comparator, cached: Version, required: Version)
  {
    && !cached.NoVersion?
    && match comparator
       case Some(newEnough) => newEnough(cached, required)
       case None =>
         || cached == required
         || (cached.IntVersion? && required.IntVersion? && cached.number > required.number)
  }

  /** A user value never looks like the negative marker, and comes out of its wrapping as it went in. */
  lemma TaggingIsSafe(value: Json)
    ensures Tagged(value) != NEGATIVE && Untagged(Tagged(value)) == Some(value) && Untagged(NEGATIVE) == None
  {
    assert VALUE_FIELD[16] == 'v' && "$meridian.cache.negative"[16] == 'n';
  }

  /** Decoding what was encoded gives the same data. */
  lemma DecodesBack(value: PythonValues.Value)
    requires Encodable(value)
    ensures var decoded := Decode(Encode(value));
      decoded.Some? && SameData(decoded.value, value)
  {
    var v := Encode(value);
    PythonValues.JsonValueWellFormed(value);
    JsonText.CanonicalRoundTrip(v);
    CanonIsCanonical(v);
    CanonicalIsFixed(Canon(v));
    CanonExactly(Canon(v), v);
    PythonValues.ThawsBack(Canon(v));
  }

  // ------------------------------------------------------ key uniqueness

  lemma {:induction false} PartsAreScalars(fields: seq<string>, identity: map<string, Json>)
    requires KeyParts(fields, identity).Ok?
    ensures ItemsWellFormed(KeyParts(fields, identity).value)
  {
    if fields != [] { PartsAreScalars(fields[1..], identity); }
  }

  /** Field by field, in order, the two identities have the same values. */
  predicate Agree(f: seq<string>, a: map<string, Json>, g: seq<string>, b: map<string, Json>)
  {
    |f| == |g| && forall i :: 0 <= i < |f| ==> f[i] in a && g[i] in b && a[f[i]] == b[g[i]]
  }

  lemma {:induction false} PartsExactly(f: seq<string>, a: map<string, Json>, g: seq<string>, b: map<string, Json>)
    requires KeyParts(f, a).Ok? && KeyParts(g, b).Ok?
    ensures SameItems(KeyParts(f, a).value, KeyParts(g, b).value) <==> Agree(f, a, g, b)
  {
    if f != [] && g != [] {
      PartsExactly(f[1..], a, g[1..], b);
      assert Agree(f, a, g, b) <==> a[f[0]] == b[g[0]] && Agree(f[1..], a, g[1..], b) by {
        assert f == [f[0]] + f[1..] && g == [g[0]] + g[1..];
      }
    }
  }

  /**
   * Two identities share a cache key exactly when they are of the same source resource and agree on the key fields; so
   * under one policy exactly when they agree on every key field.
   */
  lemma KeyExactly(p: Policy, a: map<string, Json>, q: Policy, b: map<string, Json>)
    requires Key(p, a).Ok? && Key(q, b).Ok?
    ensures JsonText.CanonicalText(Key(p, a).value) == JsonText.CanonicalText(Key(q, b).value)
      <==> p.sourceResource == q.sourceResource && Agree(p.keyFields, a, q.keyFields, b)
  {
    PartsAreScalars(p.keyFields, a);
    PartsAreScalars(q.keyFields, b);
    PartsExactly(p.keyFields, a, q.keyFields, b);
    var k, l := Key(p, a).value, Key(q, b).value;
    assert Same(k, l) <==> SameItems(k.items, l.items);
    assert SameItems(k.items, l.items) <==> Same(k.items.head, l.items.head) && SameItems(k.items.tail, l.items.tail);
    assert WellFormed(k) <==> ItemsWellFormed(k.items);
    assert WellFormed(l) <==> ItemsWellFormed(l.items);
    JsonText.CanonicalTextExactly(k, l);
  }

  predicate HasFields(fields: seq<string>, identity: map<string, Json>)
  {
    forall f :: f in fields ==> f in identity
  }

  predicate HasScalars(fields: seq<string>, identity: map<string, Json>)
  {
    forall f :: f in fields && f in identity ==> !identity[f].Null? && !identity[f].Arr? && !identity[f].Obj?
  }

  lemma {:induction false} PartsFail(fields: seq<string>, identity: map<string, Json>)
    ensures var parts := KeyParts(fields, identity);
      if !HasFields(fields, identity) then parts == Err(MissingField)
      else if !HasScalars(fields, identity) then parts == Err(NotScalar)
      else parts.Ok?
  {
    if fields != [] {
      PartsFail(fields[1..], identity);
      assert fields == [fields[0]] + fields[1..];
      assert HasFields(fields, identity) <==> fields[0] in identity && HasFields(fields[1..], identity);
      assert HasScalars(fields, identity)
        <==> (fields[0] in identity ==> Scalar(identity[fields[0]])) && HasScalars(fields[1..], identity);
    }
  }

  /** When an identity has no key: a field is missing, else one is no scalar, else the key is too long. */
  lemma KeyFails(policy: Policy, identity: map<string, Json>)
    ensures Key(policy, identity) == Err(MissingField) <==> !HasFields(policy.keyFields, identity)
    ensures Key(policy, identity) == Err(NotScalar) <==>
      HasFields(policy.keyFields, identity) && !HasScalars(policy.keyFields, identity)
    ensures HasFields(policy.keyFields, identity) && HasScalars(policy.keyFields, identity) ==>
      var text := JsonText.CanonicalText(FullKey(policy, identity));
      Key(policy, identity) == if |text| <= policy.maximumKeyBytes then Ok(FullKey(policy, identity)) else Err(TooLong)
  {
    PartsFail(policy.keyFields, identity);
  }

  /** The key, however long. */
  function FullKey(policy: Policy, identity: map<string, Json>): Json
    requires HasFields(policy.keyFields, identity) && HasScalars(policy.keyFields, identity)
  {
    PartsFail(policy.keyFields, identity);
    Arr(Item(Str(policy.sourceResource), KeyParts(policy.keyFields, identity).value))
  }
}
